/** The bundle: definitions collected from modules, and the classes and gaps `build` leaves behind. */
module YangClasses {
  import opened Text
  import opened YangSyntax
  import opened YangTypes
  import opened YangBundle
  import opened YangLibrary

  // ---------------------------------------------------------------- definitions by name, the first one winning

  function Define(m: map<string, Stmt>, s: Stmt): map<string, Stmt> {
    if Name(s) in m then m else m[Name(s) := s]
  }

  /** `_collect(stmt)` for the children of `stmt`. */
  function Collect(d: Defs, children: seq<Stmt>): Defs
    decreases children
  {
    if children == [] then d
    else
      var s := children[0];
      var d1 := if s.keyword == "grouping" then d.(groupings := Define(d.groupings, s))
                else if s.keyword == "typedef" then d.(types := d.types.(typedefs := Define(d.types.typedefs, s)))
                else d;
      Collect(if Contains(s.keyword) then Collect(d1, s.children) else d1, children[1..])
  }

  /** The files noted for the definitions `_collect` adds; those of the schema itself have none (`origin` is empty). */
  function Origins(d: Defs, known: map<Def, string>, children: seq<Stmt>, origin: string): map<Def, string>
    decreases children
  {
    if children == [] || origin == "" then known
    else
      var s := children[0];
      var (d1, known1) := (AddOne(d, s), NoteOne(d, known, s, origin));
      Origins(if Contains(s.keyword) then Collect(d1, s.children) else d1,
              if Contains(s.keyword) then Origins(d1, known1, s.children, origin) else known1, children[1..], origin)
  }

  function AddOne(d: Defs, s: Stmt): Defs {
    if s.keyword == "grouping" then d.(groupings := Define(d.groupings, s))
    else if s.keyword == "typedef" then d.(types := d.types.(typedefs := Define(d.types.typedefs, s)))
    else d
  }

  function NoteOne(d: Defs, known: map<Def, string>, s: Stmt, origin: string): map<Def, string> {
    if origin == "" then known
    else if s.keyword == "grouping" && Name(s) !in d.groupings then known[GroupingDef(Name(s)) := origin]
    else if s.keyword == "typedef" && Name(s) !in d.types.typedefs then known[TypedefDef(Name(s)) := origin]
    else known
  }

  predicate DefinedIn(d: Defs, k: Def) {
    match k
    case GroupingDef(name) => name in d.groupings
    case TypedefDef(name) => name in d.types.typedefs
  }

  /** A definition gets the file it is first found in; what was defined before keeps its own, or none. */
  lemma {:induction false} OriginIsFirst(d: Defs, known: map<Def, string>, children: seq<Stmt>, origin: string, k: Def)
    requires k in known ==> DefinedIn(d, k)
    ensures var after := Origins(d, known, children, origin);
      k in after <==> (k in known || (origin != "" && !DefinedIn(d, k) && DefinedIn(Collect(d, children), k)))
    ensures var after := Origins(d, known, children, origin); k in after ==> after[k] == if k in known then known[k] else origin
    ensures DefinedIn(d, k) ==> DefinedIn(Collect(d, children), k)
    decreases children
  {
    if children != [] {
      var s := children[0];
      var d1, known1 := AddOne(d, s), NoteOne(d, known, s, origin);
      if Contains(s.keyword) { OriginIsFirst(d1, known1, s.children, origin, k); }
      OriginIsFirst(if Contains(s.keyword) then Collect(d1, s.children) else d1,
                    if Contains(s.keyword) then Origins(d1, known1, s.children, origin) else known1, children[1..], origin, k);
    }
  }

  /** The definitions of one kind in document order. */
  function Definitions(keyword: string, children: seq<Stmt>): seq<Stmt>
    decreases children
  {
    if children == [] then []
    else
      var s := children[0];
      (if s.keyword == keyword then [s] else [])
      + ((if Contains(s.keyword) then Definitions(keyword, s.children) else []) + Definitions(keyword, children[1..]))
  }

  function DefineAll(m: map<string, Stmt>, ss: seq<Stmt>): map<string, Stmt>
    decreases |ss|
  {
    if ss == [] then m else DefineAll(Define(m, ss[0]), ss[1..])
  }

  lemma {:induction false} DefineAllPlus(m: map<string, Stmt>, a: seq<Stmt>, b: seq<Stmt>)
    ensures DefineAll(m, a + b) == DefineAll(DefineAll(m, a), b)
    decreases |a|
  {
    if a == [] {
      assert a + b == b;
    } else {
      assert (a + b)[1..] == a[1..] + b;
      DefineAllPlus(Define(m, a[0]), a[1..], b);
    }
  }

  /** Collecting is defining, in document order, everything found where definitions may stand. */
  lemma {:induction false} CollectDefines(d: Defs, children: seq<Stmt>)
    ensures var c := Collect(d, children);
      && c.groupings == DefineAll(d.groupings, Definitions("grouping", children))
      && c.types == d.types.(typedefs := DefineAll(d.types.typedefs, Definitions("typedef", children)))
    decreases children
  {
    if children != [] {
      var s, rest := children[0], children[1..];
      var d1 := if s.keyword == "grouping" then d.(groupings := Define(d.groupings, s))
                else if s.keyword == "typedef" then d.(types := d.types.(typedefs := Define(d.types.typedefs, s)))
                else d;
      if Contains(s.keyword) { CollectDefines(d1, s.children); }
      var d2 := if Contains(s.keyword) then Collect(d1, s.children) else d1;
      CollectDefines(d2, rest);
      DefinesHead(d.groupings, "grouping", children);
      DefinesHead(d.types.typedefs, "typedef", children);
    }
  }

  lemma DefinesHead(m: map<string, Stmt>, keyword: string, children: seq<Stmt>)
    requires children != []
    ensures var s := children[0];
      var m1 := if s.keyword == keyword then Define(m, s) else m;
      var m2 := if Contains(s.keyword) then DefineAll(m1, Definitions(keyword, s.children)) else m1;
      DefineAll(m, Definitions(keyword, children)) == DefineAll(m2, Definitions(keyword, children[1..]))
  {
    var s := children[0];
    var own := if s.keyword == keyword then [s] else [];
    var inner := if Contains(s.keyword) then Definitions(keyword, s.children) else [];
    DefineAllPlus(m, own, inner + Definitions(keyword, children[1..]));
    DefineAllPlus(DefineAll(m, own), inner, Definitions(keyword, children[1..]));
    assert DefineAll(m, own) == if s.keyword == keyword then Define(m, s) else m by {
      if own != [] { assert own[1..] == []; }
    }
  }

  predicate First(m: map<string, Stmt>, ss: seq<Stmt>, i: nat)
    requires i < |ss|
  {
    Name(ss[i]) !in m && forall j :: 0 <= j < i ==> Name(ss[j]) != Name(ss[i])
  }

  /** The first definition of a name is the one that counts, so what was known before shadows what comes later. */
  lemma {:induction false} FirstDefinitionWins(m: map<string, Stmt>, ss: seq<Stmt>)
    ensures forall n :: n in m ==> n in DefineAll(m, ss) && DefineAll(m, ss)[n] == m[n]
    ensures forall i :: 0 <= i < |ss| && First(m, ss, i) ==> Name(ss[i]) in DefineAll(m, ss) && DefineAll(m, ss)[Name(ss[i])] == ss[i]
    ensures forall n :: n in DefineAll(m, ss) ==> n in m || exists i :: 0 <= i < |ss| && Name(ss[i]) == n
    decreases |ss|
  {
    if ss != [] {
      var m1 := Define(m, ss[0]);
      FirstDefinitionWins(m1, ss[1..]);
      forall i | 0 <= i < |ss| && First(m, ss, i)
        ensures Name(ss[i]) in DefineAll(m, ss) && DefineAll(m, ss)[Name(ss[i])] == ss[i]
      {
        if i > 0 {
          assert Name(ss[0]) != Name(ss[i]);
          assert ss[1..][i - 1] == ss[i];
          assert forall j :: 0 <= j < i - 1 ==> ss[1..][j] == ss[j + 1];
        }
      }
      forall n | n in DefineAll(m, ss) ensures n in m || exists i :: 0 <= i < |ss| && Name(ss[i]) == n {
        if n !in m1 {
          var i :| 0 <= i < |ss[1..]| && Name(ss[1..][i]) == n;
          assert ss[i + 1] == ss[1..][i];
        }
      }
    }
  }

  // ---------------------------------------------------------------- classes

  /** The lists and containers at the top of a module and of its augments. */
  function ClassNodes(children: seq<Stmt>): seq<Stmt>
    decreases children
  {
    if children == [] then []
    else
      (if children[0].keyword == "list" || children[0].keyword == "container" then [children[0]]
       else if children[0].keyword == "augment" then ClassNodes(children[0].children)
       else []) + ClassNodes(children[1..])
  }

  function NodesOf(modules: seq<Stmt>): seq<Stmt> {
    if modules == [] then [] else ClassNodes(modules[0].children) + NodesOf(modules[1..])
  }

  function Lookup(classes: map<string, map<string, Entry>>, name: string): map<string, Entry> {
    if name in classes then classes[name] else map[]
  }

  function AddNode(d: Defs, classes: map<string, map<string, Entry>>, node: Stmt): map<string, map<string, Entry>> {
    classes[Name(node) := Lookup(classes, Name(node)) + Attributes(d, node.children, {})]
  }

  function AddNodes(d: Defs, classes: map<string, map<string, Entry>>, nodes: seq<Stmt>): map<string, map<string, Entry>>
    decreases |nodes|
  {
    if nodes == [] then classes else AddNodes(d, AddNode(d, classes, nodes[0]), nodes[1..])
  }

  function Gaps(d: Defs, nodes: seq<Stmt>): set<string> {
    if nodes == [] then {} else Unresolved(d, nodes[0].children, {}) + Gaps(d, nodes[1..])
  }

  /** The definitions used by the class nodes. */
  function UsedByAll(d: Defs, nodes: seq<Stmt>): set<Def> {
    if nodes == [] then {} else Used(d, nodes[0].children, {}) + UsedByAll(d, nodes[1..])
  }

  lemma {:induction false} UsedByAllPlus(d: Defs, a: seq<Stmt>, b: seq<Stmt>)
    ensures UsedByAll(d, a + b) == UsedByAll(d, a) + UsedByAll(d, b)
    decreases |a|
  {
    hide Used;
    if a == [] {
      assert a + b == b;
    } else {
      assert (a + b)[1..] == a[1..] + b;
      UsedByAllPlus(d, a[1..], b);
    }
  }

  /** The files named after `build`: precisely those of the library definitions reachable from a class node. */
  lemma {:induction false} LibraryIsExact(d: Defs, origins: map<Def, string>, nodes: seq<Stmt>, file: string)
    ensures file in Files(origins, UsedByAll(d, nodes)) <==>
      exists k, i :: 0 <= i < |nodes| && k in origins && origins[k] == file && ReachableDef(d, nodes[i].children, k)
  {
    hide Used, ReachableDef, UsedByAll;
    forall k ensures k in UsedByAll(d, nodes) <==> exists i :: 0 <= i < |nodes| && ReachableDef(d, nodes[i].children, k) {
      UsedByAllIsExact(d, nodes, k);
    }
  }

  lemma {:induction false} UsedByAllIsExact(d: Defs, nodes: seq<Stmt>, k: Def)
    ensures k in UsedByAll(d, nodes) <==> exists i :: 0 <= i < |nodes| && ReachableDef(d, nodes[i].children, k)
  {
    hide Used, ReachableDef;
    if nodes != [] {
      UsedByAllIsExact(d, nodes[1..], k);
      UsedIsExact(d, nodes[0].children, k);
      if k in UsedByAll(d, nodes[1..]) {
        var i :| 0 <= i < |nodes[1..]| && ReachableDef(d, nodes[1..][i].children, k);
        assert nodes[i + 1] == nodes[1..][i];
      }
      if i :| 0 <= i < |nodes| && ReachableDef(d, nodes[i].children, k) {
        if i > 0 { assert nodes[1..][i - 1] == nodes[i]; }
      }
    }
  }

  lemma {:induction false} AddNodesPlus(d: Defs, classes: map<string, map<string, Entry>>, a: seq<Stmt>, b: seq<Stmt>)
    ensures AddNodes(d, classes, a + b) == AddNodes(d, AddNodes(d, classes, a), b)
    ensures Gaps(d, a + b) == Gaps(d, a) + Gaps(d, b)
    decreases |a|
  {
    hide Attributes, Unresolved;
    if a == [] {
      assert a + b == b;
    } else {
      assert (a + b)[1..] == a[1..] + b;
      AddNodesPlus(d, AddNode(d, classes, a[0]), a[1..], b);
    }
  }

  /** `unresolved` after `build`: precisely the `uses` arguments reachable from a class node whose grouping nothing defines. */
  lemma {:induction false} GapsAreExact(d: Defs, nodes: seq<Stmt>, a: string)
    ensures a in Gaps(d, nodes) <==> exists i :: 0 <= i < |nodes| && ReachableUnresolved(d, nodes[i].children, a)
  {
    hide Unresolved, ReachableUnresolved;
    if nodes != [] {
      GapsAreExact(d, nodes[1..], a);
      UnresolvedIsExact(d, nodes[0].children, a);
      if a in Gaps(d, nodes[1..]) {
        var i :| 0 <= i < |nodes[1..]| && ReachableUnresolved(d, nodes[1..][i].children, a);
        assert nodes[i + 1] == nodes[1..][i];
      }
      if i :| 0 <= i < |nodes| && ReachableUnresolved(d, nodes[i].children, a) {
        if i > 0 { assert nodes[1..][i - 1] == nodes[i]; }
      }
    }
  }

  /** Every attribute the class `name` is given, by all nodes of that name in order, `uses` expanded. */
  ghost function ClassListing(d: Defs, rank: map<string, nat>, nodes: seq<Stmt>, r: nat, name: string): seq<(string, Entry)>
    requires Ranked(d, rank) && forall i :: 0 <= i < |nodes| ==> Below(d, rank, nodes[i].children, r)
  {
    if nodes == [] then []
    else (if Name(nodes[0]) == name then Listing(d, Expand(d, rank, nodes[0].children, r)) else [])
         + ClassListing(d, rank, nodes[1..], r, name)
  }

  /** A class holds the last definition of each attribute over all its nodes. */
  lemma {:induction false} ClassMeaning(
      d: Defs, rank: map<string, nat>, r: nat, name: string,
      before: seq<(string, Entry)>, classes: map<string, map<string, Entry>>, nodes: seq<Stmt>)
    requires Ranked(d, rank) && forall i :: 0 <= i < |nodes| ==> Below(d, rank, nodes[i].children, r)
    requires LastWins(before, Lookup(classes, name))
    ensures LastWins(before + ClassListing(d, rank, nodes, r, name), Lookup(AddNodes(d, classes, nodes), name))
    decreases |nodes|
  {
    hide Attributes, Listing, Expand, LastWins, Ranked, Below;
    if nodes == [] {
      assert before + [] == before;
    } else {
      var node, rest := nodes[0], nodes[1..];
      var head := if Name(node) == name then Listing(d, Expand(d, rank, node.children, r)) else [];
      if Name(node) == name {
        AttributesMeanExpansion(d, rank, node.children, r);
        LastWinsPlus(before, Lookup(classes, name), head, Attributes(d, node.children, {}));
      } else {
        assert before + head == before;
      }
      ClassMeaning(d, rank, r, name, before + head, AddNode(d, classes, node), rest);
      Assoc(before, head, ClassListing(d, rank, rest, r, name));
    }
  }

  /** The classes of a bundle whose groupings do not use themselves. */
  lemma ClassesMeanExpansion(d: Defs, rank: map<string, nat>, r: nat, name: string, nodes: seq<Stmt>)
    requires Ranked(d, rank) && forall i :: 0 <= i < |nodes| ==> Below(d, rank, nodes[i].children, r)
    ensures LastWins(ClassListing(d, rank, nodes, r, name), Lookup(AddNodes(d, map[], nodes), name))
  {
    hide Attributes, Listing, Expand, Ranked, Below;
    ClassMeaning(d, rank, r, name, [], map[], nodes);
    assert [] + ClassListing(d, rank, nodes, r, name) == ClassListing(d, rank, nodes, r, name);
  }

  // ---------------------------------------------------------------- the object the reader fills

  class Bundle {
    var groupings: map<string, Stmt>
    var typedefs: map<string, Stmt>
    var modules: seq<Stmt>
    var classes: map<string, map<string, Entry>>
    var unresolved: set<string>
    var libraryOrigin: map<Def, string>
    var libraryUsed: set<string>
    const number: string -> int

    constructor (number: string -> int)
      ensures groupings == map[] && typedefs == map[] && modules == [] && classes == map[] && unresolved == {}
      ensures libraryOrigin == map[] && libraryUsed == {} && this.number == number
    {
      groupings, typedefs, modules, classes, unresolved, libraryOrigin, libraryUsed := map[], map[], [], map[], {}, map[], {};
      this.number := number;
    }

    function Found(): Defs
      reads this
    {
      Defs(groupings, Types(typedefs, number))
    }

    method AddModule(m: Stmt)
      modifies this`modules, this`groupings, this`typedefs, this`libraryOrigin
      ensures modules == old(modules) + [m] && Found() == Collect(old(Found()), m.children) && libraryOrigin == old(libraryOrigin)
    {
      modules := modules + [m];
      CollectFrom(m.children, "");
    }

    method AddLibraryModule(m: Stmt, origin: string)
      modifies this`groupings, this`typedefs, this`libraryOrigin
      ensures Found() == Collect(old(Found()), m.children)
      ensures libraryOrigin == Origins(old(Found()), old(libraryOrigin), m.children, origin)
    {
      CollectFrom(m.children, origin);
    }

    method CollectFrom(children: seq<Stmt>, origin: string)
      modifies this`groupings, this`typedefs, this`libraryOrigin
      ensures Found() == Collect(old(Found()), children)
      ensures libraryOrigin == Origins(old(Found()), old(libraryOrigin), children, origin)
      decreases children
    {
      assert children[0..] == children;
      for i := 0 to |children|
        invariant Collect(Found(), children[i..]) == Collect(old(Found()), children)
        invariant Origins(Found(), libraryOrigin, children[i..], origin) == Origins(old(Found()), old(libraryOrigin), children, origin)
      {
        var s := children[i];
        assert children[i..][1..] == children[i + 1..];
        CollectOne(s, origin);
        if Contains(s.keyword) {
          CollectFrom(s.children, origin);
        }
      }
    }

    /** One statement, its children aside. */
    method CollectOne(s: Stmt, origin: string)
      modifies this`groupings, this`typedefs, this`libraryOrigin
      ensures Found() == AddOne(old(Found()), s)
      ensures libraryOrigin == NoteOne(old(Found()), old(libraryOrigin), s, origin)
    {
      if s.keyword == "grouping" {
        if Name(s) !in groupings {
          groupings := groupings[Name(s) := s];
          if origin != "" { libraryOrigin := libraryOrigin[GroupingDef(Name(s)) := origin]; }
        }
      } else if s.keyword == "typedef" {
        if Name(s) !in typedefs {
          typedefs := typedefs[Name(s) := s];
          if origin != "" { libraryOrigin := libraryOrigin[TypedefDef(Name(s)) := origin]; }
        }
      }
    }

    /** `_used` */
    method Note(k: Def)
      modifies this`libraryUsed
      ensures libraryUsed == old(libraryUsed) + Files(libraryOrigin, {k})
    {
      if k in libraryOrigin { libraryUsed := libraryUsed + {libraryOrigin[k]}; }
    }

    /** What `type_of` notes on its way along the typedefs. */
    method NoteTypedefs(s: Stmt, depth: nat)
      modifies this`libraryUsed
      ensures var ks := set name | name in TypedefsOf(Found().types, s, depth) :: TypedefDef(name);
        libraryUsed == old(libraryUsed) + Files(libraryOrigin, ks)
      decreases 11 - depth
    {
      var name := Local(Name(s));
      if !BuiltIn(name) && name in typedefs && depth < 10 {
        Note(TypedefDef(name));
        var inner := Children(typedefs[name], "type");
        if inner != [] { NoteTypedefs(inner[0], depth + 1); }
      }
    }

    method AttributesOf(children: seq<Stmt>, seen: set<string>) returns (attrs: map<string, Entry>)
      modifies this`unresolved, this`libraryUsed
      ensures attrs == Attributes(Found(), children, seen)
      ensures unresolved == old(unresolved) + Unresolved(Found(), children, seen)
      ensures libraryUsed == old(libraryUsed) + Files(libraryOrigin, Used(Found(), children, seen))
      decreases groupings.Keys - seen, children
    {
      hide OwnEntry, Transparent, Local, Contribution, Missing, UsedBy, Files;
      attrs := map[];
      ghost var d, o := Found(), libraryOrigin;
      ghost var all := Files(o, Used(d, children, seen));
      assert children[0..] == children;
      for i := 0 to |children|
        invariant Found() == d
        invariant attrs + Attributes(d, children[i..], seen) == Attributes(d, children, seen)
        invariant unresolved + Unresolved(d, children[i..], seen) == old(unresolved) + Unresolved(d, children, seen)
        invariant libraryUsed + Files(o, Used(d, children[i..], seen)) == old(libraryUsed) + all
      {
        assert children[i..][1..] == children[i + 1..];
        FilesPlus(o, UsedBy(d, children[i], seen), Used(d, children[i + 1..], seen));
        var more := ContributionOf(children[i], seen);
        attrs := attrs + more;
      }
      NoFiles(o);
    }

    method ContributionOf(s: Stmt, seen: set<string>) returns (more: map<string, Entry>)
      modifies this`unresolved, this`libraryUsed
      ensures more == Contribution(Found(), s, seen)
      ensures unresolved == old(unresolved) + Missing(Found(), s, seen)
      ensures libraryUsed == old(libraryUsed) + Files(libraryOrigin, UsedBy(Found(), s, seen))
      decreases groupings.Keys - seen, s
    {
      more := map[];
      if s.keyword == "uses" {
        var name := Local(Name(s));
        if name !in groupings {
          unresolved := unresolved + {Name(s)};
        } else if name !in seen {
          assert name in groupings.Keys - seen;
          assert groupings.Keys - (seen + {name}) < groupings.Keys - seen;
          Note(GroupingDef(name));
          FilesPlus(libraryOrigin, {GroupingDef(name)}, Used(Found(), groupings[name].children, seen + {name}));
          more := AttributesOf(groupings[name].children, seen + {name});
        }
      } else if Transparent(s) {
        more := AttributesOf(s.children, seen);
      } else {
        if s.keyword == "leaf" {
          var types := Children(s, "type");
          if types != [] { NoteTypedefs(types[0], 0); }
        }
        var entry := OwnEntry(Found(), s);
        if entry.Some? { more := map[Name(s) := entry.value]; }
      }
    }

    method AddClass(node: Stmt)
      modifies this`classes, this`unresolved, this`libraryUsed
      ensures classes == AddNode(Found(), old(classes), node)
      ensures libraryUsed == old(libraryUsed) + Files(libraryOrigin, Used(Found(), node.children, {}))
      ensures unresolved == old(unresolved) + Unresolved(Found(), node.children, {})
    {
      var attrs := AttributesOf(node.children, {});
      var existing := if Name(node) in classes then classes[Name(node)] else map[];
      classes := classes[Name(node) := existing + attrs];
    }

    method Walk(children: seq<Stmt>)
      modifies this`classes, this`unresolved, this`libraryUsed
      ensures classes == AddNodes(Found(), old(classes), ClassNodes(children))
      ensures libraryUsed == old(libraryUsed) + Files(libraryOrigin, UsedByAll(Found(), ClassNodes(children)))
      ensures unresolved == old(unresolved) + Gaps(Found(), ClassNodes(children))
      decreases children
    {
      hide Attributes, Unresolved, AddNode, AddNodes, Gaps, Used, UsedByAll, Files;
      ghost var d, c := Found(), classes;
      ghost var done: seq<Stmt> := [];
      NoNodes(d, c);
      NoFiles(libraryOrigin);
      assert children[0..] == children;
      for i := 0 to |children|
        invariant Found() == d
        invariant done + ClassNodes(children[i..]) == ClassNodes(children)
        invariant classes == AddNodes(d, c, done)
        invariant unresolved == old(unresolved) + Gaps(d, done)
        invariant libraryUsed == old(libraryUsed) + Files(libraryOrigin, UsedByAll(d, done))
      {
        var s := children[i];
        ghost var more: seq<Stmt> := [];
        assert children[i..][1..] == children[i + 1..];
        if s.keyword == "list" || s.keyword == "container" {
          AddClass(s);
          more := [s];
          OneNode(d, AddNodes(d, c, done), s);
        } else if s.keyword == "augment" {
          Walk(s.children);
          more := ClassNodes(s.children);
        } else {
          NoNodes(d, AddNodes(d, c, done));
        }
        AddNodesPlus(d, c, done, more);
        UsedByAllPlus(d, done, more);
        FilesPlus(libraryOrigin, UsedByAll(d, done), UsedByAll(d, more));
        Assoc(done, more, ClassNodes(children[i + 1..]));
        done := done + more;
      }
      assert done + [] == done;
    }

    /** `build()`: called once, after every module is added. */
    method Build()
      modifies this`classes, this`unresolved, this`libraryUsed
      ensures classes == AddNodes(Found(), old(classes), NodesOf(modules))
      ensures libraryUsed == old(libraryUsed) + Files(libraryOrigin, UsedByAll(Found(), NodesOf(modules)))
      ensures unresolved == old(unresolved) + Gaps(Found(), NodesOf(modules))
    {
      hide Attributes, Unresolved, AddNode, AddNodes, Gaps, ClassNodes, Used, UsedByAll, Files;
      ghost var d, c := Found(), classes;
      ghost var done: seq<Stmt> := [];
      NoNodes(d, c);
      NoFiles(libraryOrigin);
      assert modules[0..] == modules;
      for i := 0 to |modules|
        invariant Found() == d
        invariant done + NodesOf(modules[i..]) == NodesOf(modules)
        invariant classes == AddNodes(d, c, done)
        invariant unresolved == old(unresolved) + Gaps(d, done)
        invariant libraryUsed == old(libraryUsed) + Files(libraryOrigin, UsedByAll(d, done))
      {
        assert modules[i..][1..] == modules[i + 1..];
        Walk(modules[i].children);
        AddNodesPlus(d, c, done, ClassNodes(modules[i].children));
        UsedByAllPlus(d, done, ClassNodes(modules[i].children));
        FilesPlus(libraryOrigin, UsedByAll(d, done), UsedByAll(d, ClassNodes(modules[i].children)));
        Assoc(done, ClassNodes(modules[i].children), NodesOf(modules[i + 1..]));
        done := done + ClassNodes(modules[i].children);
      }
      assert done + [] == done;
    }
  }

  lemma NoFiles(origins: map<Def, string>)
    ensures Files(origins, {}) == {}
  {
  }

  lemma NoNodes(d: Defs, classes: map<string, map<string, Entry>>)
    ensures AddNodes(d, classes, []) == classes && Gaps(d, []) == {} && UsedByAll(d, []) == {}
  {
  }

  lemma OneNode(d: Defs, classes: map<string, map<string, Entry>>, node: Stmt)
    ensures AddNodes(d, classes, [node]) == AddNode(d, classes, node) && Gaps(d, [node]) == Unresolved(d, node.children, {})
    ensures UsedByAll(d, [node]) == Used(d, node.children, {})
  {
    assert [node][1..] == [];
  }
}
