/** From parsed YANG modules to class descriptors: grouping expansion, definitions by name, and what stays unresolved. */
module YangBundle {
  import opened Text
  import opened YangSyntax
  import opened YangTypes

  /** Everything found by name. */
  datatype Defs = Defs(groupings: map<string, Stmt>, types: Types)

  predicate Contains(keyword: string) {
    || keyword == "grouping" || keyword == "list" || keyword == "container" || keyword == "choice" || keyword == "case"
    || keyword == "augment" || keyword == "rpc" || keyword == "notification" || keyword == "action"
  }

  /** Statements whose children are read as the parent's own: choices, cases, and the container (or list) named `attributes`. */
  predicate Transparent(s: Stmt) {
    s.keyword == "choice" || s.keyword == "case" || ((s.keyword == "list" || s.keyword == "container") && Name(s) == "attributes")
  }

  /** The attribute one statement defines by itself. */
  function OwnEntry(d: Defs, s: Stmt): Option<Entry> {
    if s.keyword == "leaf" then
      var types := Children(s, "type"); Some(if types == [] then Bare(Any) else TypeOf(d.types, types[0], 0))
    else if s.keyword == "leaf-list" then Some(Bare(Array))
    else if s.keyword == "list" && Name(s) != "attributes" then Some(Bare(Array))
    else if s.keyword == "container" && Name(s) != "attributes" then Some(Bare(Object))
    else if s.keyword == "anydata" || s.keyword == "anyxml" then Some(Bare(Any))
    else None
  }

  // ---------------------------------------------------------------- attributes, with groupings expanded along a path

  /** `attributes(node, seen)` for the children of `node`. */
  function Attributes(d: Defs, children: seq<Stmt>, seen: set<string>): map<string, Entry>
    decreases d.groupings.Keys - seen, children, 1
  {
    if children == [] then map[] else Contribution(d, children[0], seen) + Attributes(d, children[1..], seen)
  }

  function Contribution(d: Defs, s: Stmt, seen: set<string>): map<string, Entry>
    decreases d.groupings.Keys - seen, s, 0
  {
    if s.keyword == "uses" then
      var name := Local(Name(s));
      if name in d.groupings && name !in seen then
        assert d.groupings.Keys - (seen + {name}) < d.groupings.Keys - seen by {
          assert name in d.groupings.Keys - seen;
        }
        Attributes(d, d.groupings[name].children, seen + {name})
      else map[]
    else if Transparent(s) then Attributes(d, s.children, seen)
    else if OwnEntry(d, s).Some? then map[Name(s) := OwnEntry(d, s).value]
    else map[]
  }

  /** What the same walk adds to `unresolved`. */
  function Unresolved(d: Defs, children: seq<Stmt>, seen: set<string>): set<string>
    decreases d.groupings.Keys - seen, children, 1
  {
    if children == [] then {} else Missing(d, children[0], seen) + Unresolved(d, children[1..], seen)
  }

  function Missing(d: Defs, s: Stmt, seen: set<string>): set<string>
    decreases d.groupings.Keys - seen, s, 0
  {
    if s.keyword == "uses" then
      var name := Local(Name(s));
      if name !in d.groupings then {Name(s)}
      else if name !in seen then
        assert d.groupings.Keys - (seen + {name}) < d.groupings.Keys - seen by {
          assert name in d.groupings.Keys - seen;
        }
        Unresolved(d, d.groupings[name].children, seen + {name})
      else {}
    else if Transparent(s) then Unresolved(d, s.children, seen)
    else {}
  }

  // ---------------------------------------------------------------- `unresolved` is exactly what can be reached

  /** The `uses` arguments met without entering a grouping. */
  function DirectUses(children: seq<Stmt>): set<string> {
    if children == [] then {}
    else (if children[0].keyword == "uses" then {Name(children[0])}
          else if Transparent(children[0]) then DirectUses(children[0].children) else {}) + DirectUses(children[1..])
  }

  /** `p` names groupings, each used by the one before it and the first used by the start. Cycles are allowed. */
  ghost predicate Path(d: Defs, start: seq<Stmt>, p: seq<string>)
    decreases |p|
  {
    p != [] ==>
      && p[0] in d.groupings && (exists u :: u in DirectUses(start) && Local(u) == p[0])
      && Path(d, d.groupings[p[0]].children, p[1..])
  }

  function EndOf(d: Defs, start: seq<Stmt>, p: seq<string>): seq<Stmt>
    requires forall g :: g in p ==> g in d.groupings
  {
    if p == [] then start else d.groupings[p[|p| - 1]].children
  }

  ghost predicate ReachableUnresolved(d: Defs, start: seq<Stmt>, a: string) {
    exists p: seq<string> :: Reaches(d, start, p, a)
  }

  ghost predicate Reaches(d: Defs, start: seq<Stmt>, p: seq<string>, a: string) {
    Path(d, start, p) && (forall g :: g in p ==> g in d.groupings) && a in DirectUses(EndOf(d, start, p)) && Local(a) !in d.groupings
  }

  ghost predicate Through(d: Defs, children: seq<Stmt>, seen: set<string>, a: string, u: string) {
    var n := Local(u);
    u in DirectUses(children) && n in d.groupings && n !in seen && a in Unresolved(d, d.groupings[n].children, seen + {n})
  }

  /** One step of the walk: an argument is unresolved here, or behind a grouping that is used here and not on the path. */
  lemma {:induction false} UnresolvedStep(d: Defs, children: seq<Stmt>, seen: set<string>, a: string)
    ensures a in Unresolved(d, children, seen) <==> Found(d, children, seen, a)
    decreases children
  {
    if children != [] {
      var s, rest := children[0], children[1..];
      UnresolvedStep(d, rest, seen, a);
      if Transparent(s) && s.keyword != "uses" { UnresolvedStep(d, s.children, seen, a); }
      UnresolvedHead(d, children, seen, a);
    }
  }

  ghost predicate Found(d: Defs, children: seq<Stmt>, seen: set<string>, a: string) {
    (a in DirectUses(children) && Local(a) !in d.groupings) || exists u :: Through(d, children, seen, a, u)
  }

  lemma UnresolvedHead(d: Defs, children: seq<Stmt>, seen: set<string>, a: string)
    requires children != [] && (a in Unresolved(d, children[1..], seen) <==> Found(d, children[1..], seen, a))
    requires var s := children[0];
      Transparent(s) && s.keyword != "uses" ==> (a in Unresolved(d, s.children, seen) <==> Found(d, s.children, seen, a))
    ensures a in Unresolved(d, children, seen) <==> Found(d, children, seen, a)
  {
    var s, rest := children[0], children[1..];
    FoundMore(d, rest, children, seen, a);
    if s.keyword == "uses" {
      if a in Missing(d, s, seen) && Local(Name(s)) in d.groupings { assert Through(d, children, seen, a, Name(s)); }
      forall u | Through(d, children, seen, a, u) ensures a in Missing(d, s, seen) || Through(d, rest, seen, a, u) {}
    } else if Transparent(s) {
      FoundMore(d, s.children, children, seen, a);
      forall u | Through(d, children, seen, a, u) ensures Through(d, s.children, seen, a, u) || Through(d, rest, seen, a, u) {}
    } else {
      forall u | Through(d, children, seen, a, u) ensures Through(d, rest, seen, a, u) {}
    }
  }

  lemma FoundMore(d: Defs, less: seq<Stmt>, more: seq<Stmt>, seen: set<string>, a: string)
    requires DirectUses(less) <= DirectUses(more)
    ensures Found(d, less, seen, a) ==> Found(d, more, seen, a)
  {
    forall u | Through(d, less, seen, a, u) ensures Through(d, more, seen, a, u) {}
  }

  lemma {:induction false} UnresolvedIsReachable(d: Defs, children: seq<Stmt>, seen: set<string>, a: string)
    requires a in Unresolved(d, children, seen)
    ensures ReachableUnresolved(d, children, a)
    decreases d.groupings.Keys - seen
  {
    hide Attributes, Contribution, Unresolved, Missing;
    UnresolvedStep(d, children, seen, a);
    if a in DirectUses(children) && Local(a) !in d.groupings {
      assert Reaches(d, children, [], a);
    } else {
      var u :| Through(d, children, seen, a, u);
      var n := Local(u);
      assert n in d.groupings.Keys - seen;
      assert d.groupings.Keys - (seen + {n}) < d.groupings.Keys - seen;
      UnresolvedIsReachable(d, d.groupings[n].children, seen + {n}, a);
      var p: seq<string> :| Reaches(d, d.groupings[n].children, p, a);
      assert ([n] + p)[1..] == p;
      assert Reaches(d, children, [n] + p, a);
    }
  }

  function LastIndex(p: seq<string>, g: string): (k: nat)
    requires g in p
    ensures k < |p| && p[k] == g && g !in p[k + 1..]
  {
    if p[|p| - 1] == g then |p| - 1
    else
      assert p[..|p| - 1] + [p[|p| - 1]] == p;
      var k := LastIndex(p[..|p| - 1], g);
      assert p[k + 1..] == p[..|p| - 1][k + 1..] + [p[|p| - 1]];
      k
  }

  lemma {:induction false} PathTail(d: Defs, start: seq<Stmt>, p: seq<string>, k: nat)
    requires Path(d, start, p) && k < |p|
    ensures p[k] in d.groupings && Path(d, d.groupings[p[k]].children, p[k + 1..])
    decreases k
  {
    if k > 0 {
      PathTail(d, d.groupings[p[0]].children, p[1..], k - 1);
      assert p[1..][k - 1 + 1..] == p[k + 1..];
    }
  }

  /** A path that avoids `seen` is never cut off: its loops are skipped by jumping to the last visit of its first grouping. */
  lemma {:induction false} ReachableIsUnresolved(d: Defs, children: seq<Stmt>, seen: set<string>, p: seq<string>, a: string)
    requires Reaches(d, children, p, a) && forall g :: g in p ==> g !in seen
    ensures a in Unresolved(d, children, seen)
    decreases |p|
  {
    hide Attributes, Contribution, Unresolved, Missing;
    UnresolvedStep(d, children, seen, a);
    if p != [] {
      var g := p[0];
      var k := LastIndex(p, g);
      PathTail(d, children, p, k);
      var q := p[k + 1..];
      assert forall x :: x in q ==> x in p;
      assert q == [] || q[|q| - 1] == p[|p| - 1];
      assert Reaches(d, d.groupings[g].children, q, a);
      ReachableIsUnresolved(d, d.groupings[g].children, seen + {g}, q, a);
      var u :| u in DirectUses(children) && Local(u) == g;
      assert Through(d, children, seen, a, u);
    }
  }

  /** With cyclic groupings or not, the path check hides no unresolved `uses` and invents none. */
  lemma UnresolvedIsExact(d: Defs, children: seq<Stmt>, a: string)
    ensures a in Unresolved(d, children, {}) <==> ReachableUnresolved(d, children, a)
  {
    hide Unresolved;
    if a in Unresolved(d, children, {}) { UnresolvedIsReachable(d, children, {}, a); }
    if ReachableUnresolved(d, children, a) {
      var p: seq<string> :| Reaches(d, children, p, a);
      ReachableIsUnresolved(d, children, {}, p, a);
    }
  }

  // ---------------------------------------------------------------- expansion preserves meaning

  /** A numbering of groupings that decreases along every `uses`: no grouping uses itself, directly or not. */
  ghost predicate Ranked(d: Defs, rank: map<string, nat>) {
    && rank.Keys == d.groupings.Keys
    && forall g :: g in d.groupings ==> Below(d, rank, d.groupings[g].children, rank[g])
  }

  ghost predicate Below(d: Defs, rank: map<string, nat>, children: seq<Stmt>, r: nat)
    requires rank.Keys == d.groupings.Keys
  {
    forall u :: u in DirectUses(children) && Local(u) in d.groupings ==> rank[Local(u)] < r
  }

  /** The tree with every `uses` replaced by the children of its grouping, and the unresolvable ones dropped. */
  ghost function Expand(d: Defs, rank: map<string, nat>, children: seq<Stmt>, r: nat): seq<Stmt>
    requires Ranked(d, rank) && Below(d, rank, children, r)
    decreases r, children
  {
    if children == [] then []
    else
      var s := children[0];
      assert DirectUses(children[1..]) <= DirectUses(children);
      (if s.keyword == "uses" then
        assert Name(s) in DirectUses(children);
        if Local(Name(s)) in d.groupings then Expand(d, rank, d.groupings[Local(Name(s))].children, rank[Local(Name(s))]) else []
       else if Transparent(s) then
         assert DirectUses(s.children) <= DirectUses(children);
         [s.(children := Expand(d, rank, s.children, r))]
       else [s])
      + Expand(d, rank, children[1..], r)
  }

  /** Every attribute a `uses`-free tree defines, in document order. */
  function Listing(d: Defs, children: seq<Stmt>): seq<(string, Entry)> {
    if children == [] then []
    else
      var s := children[0];
      (if s.keyword == "uses" then []
       else if Transparent(s) then Listing(d, s.children)
       else if OwnEntry(d, s).Some? then [(Name(s), OwnEntry(d, s).value)]
       else []) + Listing(d, children[1..])
  }

  /** The last definition of a name wins. */
  ghost predicate LastWins(listing: seq<(string, Entry)>, m: map<string, Entry>) {
    && (forall name :: name in m <==> Defines(listing, name))
    && forall i: nat :: IsLast(listing, i) ==> listing[i].0 in m && m[listing[i].0] == listing[i].1
  }

  ghost predicate Defines(listing: seq<(string, Entry)>, name: string) {
    exists i :: 0 <= i < |listing| && listing[i].0 == name
  }

  lemma DefinesPlus(x: seq<(string, Entry)>, y: seq<(string, Entry)>, name: string)
    ensures Defines(x + y, name) <==> Defines(x, name) || Defines(y, name)
  {
    if Defines(x, name) {
      var i :| 0 <= i < |x| && x[i].0 == name;
      assert (x + y)[i] == x[i];
    }
    if Defines(y, name) {
      var i :| 0 <= i < |y| && y[i].0 == name;
      assert (x + y)[|x| + i] == y[i];
    }
  }

  ghost predicate IsLast(listing: seq<(string, Entry)>, i: nat) {
    i < |listing| && forall j :: i < j < |listing| ==> listing[j].0 != listing[i].0
  }

  lemma LastWinsPlus(x: seq<(string, Entry)>, m: map<string, Entry>, y: seq<(string, Entry)>, n: map<string, Entry>)
    requires LastWins(x, m) && LastWins(y, n)
    ensures LastWins(x + y, m + n)
  {
    var z := x + y;
    forall name: string ensures name in m + n <==> Defines(z, name) { DefinesPlus(x, y, name); }
    forall i: nat | IsLast(z, i) ensures z[i].0 in m + n && (m + n)[z[i].0] == z[i].1 { LastOfPlus(x, m, y, n, i); }
  }

  lemma LastOfPlus(x: seq<(string, Entry)>, m: map<string, Entry>, y: seq<(string, Entry)>, n: map<string, Entry>, i: nat)
    requires LastWins(x, m) && LastWins(y, n) && IsLast(x + y, i)
    ensures var z := x + y; z[i].0 in m + n && (m + n)[z[i].0] == z[i].1
  {
    var z := x + y;
    if i < |x| {
      assert IsLast(x, i) by { assert forall j :: i < j < |x| ==> z[j] == x[j]; }
      assert !Defines(y, z[i].0) by { assert forall j :: 0 <= j < |y| ==> z[|x| + j] == y[j]; }
    } else {
      assert IsLast(y, i - |x|) by { assert forall j :: i - |x| < j < |y| ==> z[|x| + j] == y[j]; }
    }
  }

  lemma {:induction false} ListingPlus(d: Defs, a: seq<Stmt>, b: seq<Stmt>)
    ensures Listing(d, a + b) == Listing(d, a) + Listing(d, b)
  {
    if a == [] {
      assert a + b == b;
    } else {
      assert (a + b)[1..] == a[1..] + b;
      ListingPlus(d, a[1..], b);
    }
  }

  /**
   * Attributes read along the path equal the attributes of the expanded tree, the last definition winning, when no
   * grouping that can be reached is on the path already.
   */
  lemma {:induction false} ExpansionKeepsAttributes(d: Defs, rank: map<string, nat>, children: seq<Stmt>, r: nat, seen: set<string>)
    requires Ranked(d, rank) && Below(d, rank, children, r)
    requires forall g :: g in seen && g in rank ==> rank[g] >= r
    ensures LastWins(Listing(d, Expand(d, rank, children, r)), Attributes(d, children, seen))
    decreases r, children
  {
    if children != [] {
      var s, rest := children[0], children[1..];
      assert DirectUses(rest) <= DirectUses(children);
      ExpansionKeepsAttributes(d, rank, rest, r, seen);
      var head: seq<Stmt> := [];
      if s.keyword == "uses" {
        assert Name(s) in DirectUses(children);
        var n := Local(Name(s));
        if n in d.groupings {
          assert rank[n] < r && n !in seen;
          ExpansionKeepsAttributes(d, rank, d.groupings[n].children, rank[n], seen + {n});
          head := Expand(d, rank, d.groupings[n].children, rank[n]);
        }
      } else if Transparent(s) {
        assert DirectUses(s.children) <= DirectUses(children);
        ExpansionKeepsAttributes(d, rank, s.children, r, seen);
        head := [s.(children := Expand(d, rank, s.children, r))];
        ListingOfTransparent(d, head[0]);
      } else {
        head := [s];
        ListingOfOwn(d, s);
        if OwnEntry(d, s).Some? { LastWinsOne(Name(s), OwnEntry(d, s).value); }
      }
      assert Expand(d, rank, children, r) == head + Expand(d, rank, rest, r);
      assert Attributes(d, children, seen) == Contribution(d, s, seen) + Attributes(d, rest, seen);
      assert LastWins(Listing(d, head), Contribution(d, s, seen));
      ListingPlus(d, head, Expand(d, rank, rest, r));
      LastWinsPlus(Listing(d, head), Contribution(d, s, seen), Listing(d, Expand(d, rank, rest, r)), Attributes(d, rest, seen));
    }
  }

  lemma LastWinsOne(name: string, e: Entry)
    ensures LastWins([(name, e)], map[name := e])
  {
    var one := [(name, e)];
    forall x: string ensures x in map[name := e] <==> Defines(one, x) {
      if x == name { assert one[0].0 == x; }
    }
  }

  lemma ListingOfTransparent(d: Defs, s: Stmt)
    requires Transparent(s) && s.keyword != "uses"
    ensures Listing(d, [s]) == Listing(d, s.children)
  {
    assert [s][1..] == [] && Listing(d, []) == [];
  }

  lemma ListingOfOwn(d: Defs, s: Stmt)
    requires !Transparent(s) && s.keyword != "uses"
    ensures Listing(d, [s]) == if OwnEntry(d, s).Some? then [(Name(s), OwnEntry(d, s).value)] else []
  {
    assert [s][1..] == [] && Listing(d, []) == [];
  }

  /** Section 7.13 of RFC 7950 for a whole class node: a `uses` means the contents of its grouping. */
  lemma AttributesMeanExpansion(d: Defs, rank: map<string, nat>, children: seq<Stmt>, r: nat)
    requires Ranked(d, rank) && Below(d, rank, children, r)
    ensures LastWins(Listing(d, Expand(d, rank, children, r)), Attributes(d, children, {}))
    ensures DirectUses(Expand(d, rank, children, r)) == {}
  {
    ExpansionKeepsAttributes(d, rank, children, r, {});
    ExpansionHasNoUses(d, rank, children, r);
  }

  lemma {:induction false} DirectUsesPlus(a: seq<Stmt>, b: seq<Stmt>)
    ensures DirectUses(a + b) == DirectUses(a) + DirectUses(b)
  {
    if a == [] {
      assert a + b == b;
    } else {
      assert (a + b)[1..] == a[1..] + b;
      DirectUsesPlus(a[1..], b);
    }
  }

  lemma DirectUsesOne(s: Stmt)
    requires s.keyword != "uses"
    ensures DirectUses([s]) == if Transparent(s) then DirectUses(s.children) else {}
  {
    assert [s][1..] == [];
  }

  lemma {:induction false} ExpansionHasNoUses(d: Defs, rank: map<string, nat>, children: seq<Stmt>, r: nat)
    requires Ranked(d, rank) && Below(d, rank, children, r)
    ensures DirectUses(Expand(d, rank, children, r)) == {}
    decreases r, children
  {
    if children != [] {
      var s, rest := children[0], children[1..];
      assert DirectUses(rest) <= DirectUses(children);
      ExpansionHasNoUses(d, rank, rest, r);
      if s.keyword == "uses" {
        assert Name(s) in DirectUses(children);
        var n := Local(Name(s));
        if n in d.groupings {
          ExpansionHasNoUses(d, rank, d.groupings[n].children, rank[n]);
          DirectUsesPlus(Expand(d, rank, d.groupings[n].children, rank[n]), Expand(d, rank, rest, r));
        } else {
          assert [] + Expand(d, rank, rest, r) == Expand(d, rank, rest, r);
        }
      } else if Transparent(s) {
        assert DirectUses(s.children) <= DirectUses(children);
        ExpansionHasNoUses(d, rank, s.children, r);
        DirectUsesPlus([s.(children := Expand(d, rank, s.children, r))], Expand(d, rank, rest, r));
        DirectUsesOne(s.(children := Expand(d, rank, s.children, r)));
      } else {
        DirectUsesPlus([s], Expand(d, rank, rest, r));
        DirectUsesOne(s);
      }
    }
  }
}
