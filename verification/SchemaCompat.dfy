/** The check for breaking changes between two releases of an OpenAPI document, and what a clean result guarantees. */
module SchemaCompat {
  import opened Text
  import opened SchemaModel

  datatype Finding =
    | ChangedType(where: string) | Narrowed(where: string, key: string) | EnumLost(where: string) | EnumAdded(where: string)
    | NewRequiredProperty(where: string, name: string) | RemovedProperty(where: string, name: string)
    | NewRequiredParameter(where: string) | RemovedOperation | RemovedResponse(where: string)
    | TooDeep  // the comparison raised RecursionError

  /** Python's `==` on decoded JSON, where `True` equals `1`. */
  predicate PyEqual(a: Json, b: Json)
    decreases a
  {
    match a
    case Bool(x) => if b.Bool? then x == b.b else b.Num? && b.r == (if x then 1.0 else 0.0)
    case Num(r) => if b.Bool? then r == (if b.b then 1.0 else 0.0) else b.Num? && b.r == r
    case Arr(es) => b.Arr? && |b.elements| == |es| && forall i :: 0 <= i < |es| ==> PyEqual(es[i], b.elements[i])
    case Obj(fs) => b.Obj? && b.fields.Keys == fs.Keys && forall k :: k in fs ==> PyEqual(fs[k], b.fields[k])
    case _ => a == b
  }

  predicate PyIn(v: Json, vs: seq<Json>) {
    exists i :: 0 <= i < |vs| && PyEqual(v, vs[i])
  }

  // ---------------------------------------------------------------- resolve and type_of

  function Resolve(spec: Spec, s: Schema): Schema {
    Chase(spec, s, 12)
  }

  method ResolveLoop(spec: Spec, s: Schema) returns (node: Schema)
    ensures node == Resolve(spec, s)
  {
    node := s;
    var depth := 0;
    while node.Ref? && depth < 12
      invariant 0 <= depth <= 12 && Chase(spec, node, 12 - depth) == Chase(spec, s, 12)
      decreases 12 - depth
    {
      node, depth := Lookup(spec, node.target), depth + 1;
    }
  }

  /** The set of type names; `None` when the nesting of options goes deeper than the interpreter's stack allows. */
  function TypeOf(spec: Spec, s: Schema, stack: nat): Option<set<string>>
    decreases stack, 1, 0
  {
    if stack == 0 then None
    else
      var n := View(Resolve(spec, s));
      var options := if n.anyOf != [] then n.anyOf else n.oneOf;
      if n.ty.Some? then Some({n.ty.value})
      else if options != [] then OptionTypes(spec, options, stack - 1)
      else if n.enum.Some? then Some({"enum"})
      else Some({"any"})
  }

  function OptionTypes(spec: Spec, options: seq<Schema>, stack: nat): Option<set<string>>
    decreases stack, 2, |options|
  {
    if options == [] then Some({})
    else
      var first, rest := TypeOf(spec, options[0], stack), OptionTypes(spec, options[1..], stack);
      if first.Some? && rest.Some? then Some(first.value + rest.value) else None
  }

  // ---------------------------------------------------------------- bounds_change

  predicate Stricter(was: map<string, real>, now: map<string, real>, key: string) {
    && (IsUpper(key) || IsLower(key)) && key in now
    && (key in was ==> if IsUpper(key) then now[key] < was[key] else now[key] > was[key])
  }

  function BoundsChange(was: Schema, now: Schema, where: string): set<Finding>
    requires was.Node? && now.Node?
  {
    (set key | key in now.bounds && Stricter(was.bounds, now.bounds, key) :: Narrowed(where, key))
    + (if was.enum.Some? && now.enum.Some?
       then (if exists i :: 0 <= i < |was.enum.value| && !PyIn(was.enum.value[i], now.enum.value) then {EnumLost(where)} else {})
       else if now.enum.Some? then {EnumAdded(where)} else {})
  }

  // ---------------------------------------------------------------- compare_schema

  /** The verdict on the types: `TooDeep`, a changed type, or nothing. */
  function TypeChange(os: Spec, o: Schema, ns: Spec, n: Schema, where: string, request: bool, stack: nat): set<Finding> {
    var ot, nt := TypeOf(os, o, stack), TypeOf(ns, n, stack);
    if ot.None? || nt.None? then {TooDeep}
    else if ot == nt || ot.value == {"any"} || nt.value == {"any"} then {}
    else if (if request then ot.value <= nt.value else nt.value <= ot.value) then {}
    else {ChangedType(where)}
  }

  function RequiredChange(o: Schema, n: Schema, where: string, request: bool): set<Finding>
    requires o.Node? && n.Node?
  {
    if request then set name | name in n.required && name !in o.required :: NewRequiredProperty(where, name)
    else set name | name in o.required && name !in n.props :: RemovedProperty(where, name)
  }

  function Compare(os: Spec, was: Schema, ns: Spec, now: Schema, where: string, request: bool, depth: nat, stack: nat): set<Finding>
    decreases 7 - depth, 2
  {
    var ro, rn := Resolve(os, was), Resolve(ns, now);
    var o, n := View(ro), View(rn);
    if depth > 6 || o == BLANK || n == BLANK then {}
    else
      var changed := TypeChange(os, ro, ns, rn, where, request, stack);
      if changed != {} then changed
      else
        (if request then BoundsChange(o, n, where) else {})
        + RequiredChange(o, n, where, request)
        + CompareProps(os, o, ns, n, where, request, depth, stack)
        + (if o.items.Some? && n.items.Some?
           then Compare(os, o.items.value, ns, n.items.value, where + "[]", request, depth + 1, stack) else {})
  }

  function CompareProps(os: Spec, o: Schema, ns: Spec, n: Schema, where: string, request: bool, depth: nat, stack: nat): set<Finding>
    requires o.Node? && n.Node? && depth <= 6
    decreases 7 - depth, 1
  {
    set name, f | name in o.props && name in n.props && f in CompareProp(os, o, ns, n, name, where, request, depth, stack) :: f
  }

  function CompareProp(os: Spec, o: Schema, ns: Spec, n: Schema, name: string, where: string, request: bool, depth: nat, stack: nat)
    : set<Finding>
    requires o.Node? && n.Node? && name in o.props && name in n.props && depth <= 6
    decreases 7 - depth, 0
  {
    Compare(os, o.props[name], ns, n.props[name], where + "." + name, request, depth + 1, stack)
  }

  lemma PropsSplit(os: Spec, o: Schema, ns: Spec, n: Schema, where: string, request: bool, depth: nat, stack: nat)
    requires o.Node? && n.Node? && depth <= 6
    ensures CompareProps(os, o, ns, n, where, request, depth, stack) == {} <==>
      forall name :: name in o.props && name in n.props ==>
        Compare(os, o.props[name], ns, n.props[name], where + "." + name, request, depth + 1, stack) == {}
  {
    hide Compare;
    var below := CompareProps(os, o, ns, n, where, request, depth, stack);
    assert forall name, f ::
      (name in o.props && name in n.props && f in CompareProp(os, o, ns, n, name, where, request, depth, stack)) ==> f in below;
    assert below == {} <==> (forall name :: name in o.props && name in n.props ==>
      CompareProp(os, o, ns, n, name, where, request, depth, stack) == {});
  }

  /** No finding at a node means none of its own and none below. */
  lemma CleanSplits(os: Spec, was: Schema, ns: Spec, now: Schema, where: string, request: bool, depth: nat, stack: nat)
    requires depth <= 6
    requires var o, n := View(Resolve(os, was)), View(Resolve(ns, now)); o != BLANK && n != BLANK
    ensures var ro, rn := Resolve(os, was), Resolve(ns, now); var o, n := View(ro), View(rn);
      Compare(os, was, ns, now, where, request, depth, stack) == {} <==>
        && TypeChange(os, ro, ns, rn, where, request, stack) == {}
        && (request ==> BoundsChange(o, n, where) == {})
        && RequiredChange(o, n, where, request) == {}
        && (forall name :: name in o.props && name in n.props ==>
              Compare(os, o.props[name], ns, n.props[name], where + "." + name, request, depth + 1, stack) == {})
        && (o.items.Some? && n.items.Some? ==>
              Compare(os, o.items.value, ns, n.items.value, where + "[]", request, depth + 1, stack) == {})
  {
    hide TypeChange, BoundsChange, RequiredChange, Resolve, CompareProps;
    PropsSplit(os, View(Resolve(os, was)), ns, View(Resolve(ns, now)), where, request, depth, stack);
  }

  // ---------------------------------------------------------------- what a clean request comparison guarantees

  predicate Scalar(j: Json) {
    !j.Arr? && !j.Obj?
  }

  /**
   * Where a clean comparison of requests can be relied on: references end within twelve hops, at most six nested levels say
   * anything, whatever the new schema types or gives items the old one types and gives items, enum values are scalars of the
   * declared type, and the new schema has no combinator, pattern or other keyword.
   */
  ghost predicate Comparable(os: Spec, was: Schema, ns: Spec, now: Schema, depth: nat)
    requires depth <= 7
    decreases 7 - depth
  {
    var o, n := Resolve(os, was), Resolve(ns, now);
    && o.Node? && n.Node?
    && (n != BLANK ==>
          && depth <= 6 && o != BLANK
          && n.anyOf == [] && n.oneOf == [] && n.pattern.None? && !n.other
          && (n.ty.Some? ==> o.ty.Some? && n.ty.value != "any")
          && (n.enum.Some? ==> n.ty.Some? && forall v :: v in n.enum.value ==> Scalar(v) && HasType(n.ty.value, v))
          && (n.items.Some? ==> o.items.Some? && Comparable(os, o.items.value, ns, n.items.value, depth + 1))
          && (forall name :: name in n.props && name in o.props ==> Comparable(os, o.props[name], ns, n.props[name], depth + 1)))
  }

  lemma ResolveMeans(spec: Spec, s: Schema)
    requires Resolve(spec, s).Node?
    ensures Meaning(spec, s) == Resolve(spec, s)
  {
    ChaseMore(spec, s, 12, 12 + |spec|);
  }

  lemma {:induction false} SameScalar(ty: string, v: Json, w: Json)
    requires HasType(ty, v) && HasType(ty, w) && Scalar(w) && PyEqual(v, w)
    ensures v == w
  {
  }

  lemma BoundsLoosen(o: Schema, n: Schema, where: string, j: Json)
    requires o.Node? && n.Node? && BoundsChange(o, n, where) == {}
    requires forall key :: key in o.bounds ==> InBound(key, o.bounds[key], j)
    ensures forall key :: key in n.bounds ==> InBound(key, n.bounds[key], j)
  {
    Reported(o, n, where);
    forall key | key in n.bounds ensures InBound(key, n.bounds[key], j) {
      if IsUpper(key) || IsLower(key) {
        assert InBound(key, o.bounds[key], j);
      }
    }
  }

  /** What ends up in the findings of one node. */
  lemma Reported(o: Schema, n: Schema, where: string)
    requires o.Node? && n.Node?
    ensures forall key :: Stricter(o.bounds, n.bounds, key) ==> Narrowed(where, key) in BoundsChange(o, n, where)
    ensures n.enum.Some? && o.enum.None? ==> EnumAdded(where) in BoundsChange(o, n, where)
    ensures forall name :: name in n.required && name !in o.required ==>
      NewRequiredProperty(where, name) in RequiredChange(o, n, where, true)
    ensures forall name :: name in o.required && name !in n.props ==>
      RemovedProperty(where, name) in RequiredChange(o, n, where, false)
  {
  }

  lemma EnumLoosens(o: Schema, n: Schema, where: string, j: Json)
    requires o.Node? && n.Node? && BoundsChange(o, n, where) == {} && n.enum.Some? && n.ty.Some?
    requires (forall v :: v in n.enum.value ==> Scalar(v) && HasType(n.ty.value, v)) && HasType(n.ty.value, j)
    requires o.enum.Some? ==> j in o.enum.value
    ensures j in n.enum.value
  {
    Reported(o, n, where);
    var i :| 0 <= i < |o.enum.value| && o.enum.value[i] == j;
    assert EnumLost(where) !in BoundsChange(o, n, where);
    var k :| 0 <= k < |n.enum.value| && PyEqual(j, n.enum.value[k]);
    SameScalar(n.ty.value, j, n.enum.value[k]);
  }

  lemma SameType(os: Spec, o: Schema, ns: Spec, n: Schema, where: string, request: bool, stack: nat)
    requires o.Node? && n.Node? && o.ty.Some? && n.ty.Some? && o.ty.value != "any" && n.ty.value != "any"
    requires TypeChange(os, o, ns, n, where, request, stack) == {}
    ensures o.ty == n.ty
  {
    assert TypeOf(os, o, stack) == Some({o.ty.value}) && TypeOf(ns, n, stack) == Some({n.ty.value});
    assert o.ty.value in {o.ty.value} && n.ty.value in {n.ty.value};
  }

  /** What one node of the new schema asks, apart from the nodes below it. */
  ghost predicate NodeFits(n: Schema, j: Json, matches: (string, string) -> bool)
    requires n.Node?
  {
    && (n.ty.Some? ==> HasType(n.ty.value, j))
    && (n.enum.Some? ==> j in n.enum.value)
    && (forall key :: key in n.bounds ==> InBound(key, n.bounds[key], j))
    && (n.pattern.Some? && j.Str? ==> matches(n.pattern.value, j.s))
    && (j.Obj? ==> forall name :: name in n.required ==> name in j.fields)
  }

  lemma NodeLoosens(os: Spec, o: Schema, ns: Spec, n: Schema, where: string, stack: nat, j: Json, matches: (string, string) -> bool)
    requires o.Node? && n.Node? && n.pattern.None?
    requires n.ty.Some? ==> o.ty.Some? && n.ty.value != "any"
    requires n.enum.Some? ==> n.ty.Some? && forall v :: v in n.enum.value ==> Scalar(v) && HasType(n.ty.value, v)
    requires TypeChange(os, o, ns, n, where, true, stack) == {} && BoundsChange(o, n, where) == {}
    requires RequiredChange(o, n, where, true) == {}
    requires NodeFits(o, j, matches)
    ensures NodeFits(n, j, matches)
  {
    hide TypeChange, BoundsChange;
    if n.ty.Some? {
      assert o.ty.value != "any" by { assert HasType(o.ty.value, j); }
      SameType(os, o, ns, n, where, true, stack);
    }
    if n.enum.Some? { EnumLoosens(o, n, where, j); }
    BoundsLoosen(o, n, where, j);
    Reported(o, n, where);
  }

  /** If the request comparison finds nothing, every value the old schema accepts is accepted by the new one. */
  lemma {:induction false} RequestSound(
      os: Spec, was: Schema, ns: Spec, now: Schema, where: string, depth: nat, stack: nat, j: Json, matches: (string, string) -> bool)
    requires depth <= 7 && Comparable(os, was, ns, now, depth)
    requires Compare(os, was, ns, now, where, true, depth, stack) == {}
    requires Valid(os, was, j, matches) && Declared(os, was, j)
    ensures Valid(ns, now, j, matches)
    decreases 7 - depth
  {
    hide TypeChange, BoundsChange, RequiredChange, Compare, Resolve, Meaning, HasType, InBound, Scalar;
    ResolveMeans(os, was);
    ResolveMeans(ns, now);
    var o, n := Resolve(os, was), Resolve(ns, now);
    if n != BLANK {
      CleanSplits(os, was, ns, now, where, true, depth, stack);
      NodeLoosens(os, o, ns, n, where, stack, j, matches);
      if j.Obj? {
        forall name | name in n.props && name in j.fields ensures Valid(ns, n.props[name], j.fields[name], matches) {
          RequestSound(os, o.props[name], ns, n.props[name], where + "." + name, depth + 1, stack, j.fields[name], matches);
        }
      }
      if j.Arr? && n.items.Some? {
        forall i | 0 <= i < |j.elements| ensures Valid(ns, n.items.value, j.elements[i], matches) {
          RequestSound(os, o.items.value, ns, n.items.value, where + "[]", depth + 1, stack, j.elements[i], matches);
        }
      }
    }
  }

  // ---------------------------------------------------------------- what a clean response comparison guarantees

  /** What a reader that ignores enums and bounds relies on: the types and, if `names`, that required names are there. */
  ghost predicate Shaped(spec: Spec, s: Schema, j: Json, names: bool)
    decreases j
  {
    var n := Meaning(spec, s);
    && (n.ty.Some? ==> HasType(n.ty.value, j))
    && (j.Obj? ==>
          && (names ==> forall name :: name in n.required ==> name in j.fields)
          && (forall name :: name in n.props && name in j.fields ==> Shaped(spec, n.props[name], j.fields[name], names)))
    && (j.Arr? && n.items.Some? ==> forall i :: 0 <= i < |j.elements| ==> Shaped(spec, n.items.value, j.elements[i], names))
  }

  /** The same for responses: what the old schema types, gives items or, if `names`, requires, the new one still does. */
  ghost predicate Readable(os: Spec, was: Schema, ns: Spec, now: Schema, names: bool, depth: nat)
    requires depth <= 7
    decreases 7 - depth
  {
    var o, n := Resolve(os, was), Resolve(ns, now);
    && o.Node? && n.Node?
    && (o != BLANK ==>
          && depth <= 6 && n != BLANK
          && (o.ty.Some? ==> n.ty.Some? && o.ty.value != "any")
          && (names ==> forall name :: name in o.required ==> name in n.required)
          && (o.items.Some? ==> n.items.Some? && Readable(os, o.items.value, ns, n.items.value, names, depth + 1))
          && (forall name :: name in o.props && name in n.props ==> Readable(os, o.props[name], ns, n.props[name], names, depth + 1)))
  }

  /**
   * If the response comparison finds nothing, every value the new schema allows has the types the old one promised, and the
   * names it promised wherever the new schema still requires them.
   */
  lemma {:induction false} ResponseSound(
      os: Spec, was: Schema, ns: Spec, now: Schema, where: string, names: bool, depth: nat, stack: nat, j: Json,
      matches: (string, string) -> bool)
    requires depth <= 7 && Readable(os, was, ns, now, names, depth)
    requires Compare(os, was, ns, now, where, false, depth, stack) == {}
    requires Valid(ns, now, j, matches) && Declared(ns, now, j)
    ensures Shaped(os, was, j, names)
    decreases 7 - depth
  {
    hide TypeChange, BoundsChange, RequiredChange, Compare, Resolve, Meaning, InBound;
    ResolveMeans(os, was);
    ResolveMeans(ns, now);
    var o, n := Resolve(os, was), Resolve(ns, now);
    if o != BLANK {
      CleanSplits(os, was, ns, now, where, false, depth, stack);
      if o.ty.Some? {
        assert n.ty.value != "any" by { assert HasType(n.ty.value, j); }
        SameType(os, o, ns, n, where, false, stack);
      }
      if j.Obj? {
        forall name | name in o.props && name in j.fields ensures Shaped(os, o.props[name], j.fields[name], names) {
          ResponseSound(os, o.props[name], ns, n.props[name], where + "." + name, names, depth + 1, stack, j.fields[name], matches);
        }
      }
      if j.Arr? && o.items.Some? {
        forall i | 0 <= i < |j.elements| ensures Shaped(os, o.items.value, j.elements[i], names) {
          ResponseSound(os, o.items.value, ns, n.items.value, where + "[]", names, depth + 1, stack, j.elements[i], matches);
        }
      }
    }
  }

  /** Which names the new schema requires plays no part in a response comparison. */
  lemma RequiredIsUnread(os: Spec, o: Schema, ns: Spec, n: Schema, required: seq<string>, where: string, depth: nat, stack: nat)
    requires n.Node? && n.(required := []) != BLANK
    ensures Compare(os, o, ns, n.(required := required), where, false, depth, stack) == Compare(os, o, ns, n, where, false, depth, stack)
  {
    hide BoundsChange, Resolve, TypeOf, CompareProps;
    var m := n.(required := required);
    NodeResolves(ns, n);
    NodeResolves(ns, m);
    assert m.(required := []) == n.(required := []);
    SameTypeOf(ns, n, m, stack);
    if depth <= 6 {
      SameProps(os, View(Resolve(os, o)), ns, n, m, where, depth, stack);
    }
  }

  lemma NodeResolves(spec: Spec, n: Schema)
    requires n.Node?
    ensures Resolve(spec, n) == n
  {
  }

  lemma SameProps(os: Spec, o: Schema, ns: Spec, n: Schema, m: Schema, where: string, depth: nat, stack: nat)
    requires depth <= 6 && o.Node? && n.Node? && m.Node? && m == n.(required := m.required)
    ensures CompareProps(os, o, ns, m, where, false, depth, stack) == CompareProps(os, o, ns, n, where, false, depth, stack)
  {
    hide Compare;
    forall name | name in o.props && name in n.props
      ensures CompareProp(os, o, ns, m, name, where, false, depth, stack) == CompareProp(os, o, ns, n, name, where, false, depth, stack)
    {
    }
  }

  /** A value without one of its optional properties is as valid as it was, where no enum lists whole values. */
  lemma WithoutOptional(spec: Spec, s: Schema, j: Json, name: string, matches: (string, string) -> bool)
    requires Meaning(spec, s).enum.None? && j.Obj? && name !in Meaning(spec, s).required
    requires Valid(spec, s, j, matches) && Declared(spec, s, j)
    ensures Valid(spec, s, Obj(j.fields - {name}), matches) && Declared(spec, s, Obj(j.fields - {name}))
  {
    hide Meaning;
    var n, less := Meaning(spec, s), j.fields - {name};
    assert forall k :: k in less ==> k in j.fields && less[k] == j.fields[k];
  }

  /**
   * The names a reader of the old release relies on are in every reply exactly when the new schema still requires them, for
   * every new schema that some object meets and that lists no whole values.
   */
  lemma RequiredIsExact(spec: Spec, s: Schema, relied: seq<string>, some: Json, matches: (string, string) -> bool)
    requires Meaning(spec, s).enum.None?
    requires some.Obj? && Valid(spec, s, some, matches) && Declared(spec, s, some)
    ensures (forall j: Json :: j.Obj? && Valid(spec, s, j, matches) && Declared(spec, s, j) ==>
               forall name :: name in relied ==> name in j.fields)
       <==> (forall name :: name in relied ==> name in Meaning(spec, s).required)
  {
    var n := Meaning(spec, s);
    forall name | name in relied && name !in n.required
      ensures exists j: Json :: j.Obj? && Valid(spec, s, j, matches) && Declared(spec, s, j) && name !in j.fields
    {
      WithoutOptional(spec, s, some, name, matches);
      assert name !in Obj(some.fields - {name}).fields;
    }
    hide Meaning, Declared;
  }

  // ---------------------------------------------------------------- a release compared with itself

  lemma {:induction false} PyReflexive(v: Json)
    ensures PyEqual(v, v)
    decreases v
  {
    match v
    case Arr(es) => forall i | 0 <= i < |es| ensures PyEqual(es[i], es[i]) { PyReflexive(es[i]); }
    case Obj(fs) => forall k | k in fs ensures PyEqual(fs[k], fs[k]) { PyReflexive(fs[k]); }
    case _ =>
  }

  /** `type_of` ends at every compared level, and in a response every required name is a declared property. */
  ghost predicate Regular(spec: Spec, s: Schema, request: bool, depth: nat, stack: nat)
    decreases 7 - depth
  {
    var n := View(Resolve(spec, s));
    depth > 6 || n == BLANK ||
    ( && TypeOf(spec, Resolve(spec, s), stack).Some?
      && (request || forall name :: name in n.required ==> name in n.props)
      && (forall name :: name in n.props ==> Regular(spec, n.props[name], request, depth + 1, stack))
      && (n.items.Some? ==> Regular(spec, n.items.value, request, depth + 1, stack)))
  }

  lemma SameNode(n: Schema, where: string, request: bool)
    requires n.Node?
    ensures BoundsChange(n, n, where) == {}
    ensures RequiredChange(n, n, where, request) == {} <==> (request || forall name :: name in n.required ==> name in n.props)
  {
    Reported(n, n, where);
    if n.enum.Some? {
      forall i | 0 <= i < |n.enum.value| ensures PyIn(n.enum.value[i], n.enum.value) {
        PyReflexive(n.enum.value[i]);
      }
    }
  }

  /** Comparing a schema with itself finds nothing exactly when it is regular. */
  lemma {:induction false} SelfCompare(spec: Spec, s: Schema, where: string, request: bool, depth: nat, stack: nat)
    ensures Compare(spec, s, spec, s, where, request, depth, stack) == {} <==> Regular(spec, s, request, depth, stack)
    decreases 7 - depth
  {
    var n := View(Resolve(spec, s));
    hide BoundsChange, RequiredChange, Resolve, TypeOf;
    if depth <= 6 && n != BLANK {
      CleanSplits(spec, s, spec, s, where, request, depth, stack);
      SameNode(n, where, request);
      forall name | name in n.props
        ensures Compare(spec, n.props[name], spec, n.props[name], where + "." + name, request, depth + 1, stack) == {}
          <==> Regular(spec, n.props[name], request, depth + 1, stack)
      {
        SelfCompare(spec, n.props[name], where + "." + name, request, depth + 1, stack);
      }
      if n.items.Some? { SelfCompare(spec, n.items.value, where + "[]", request, depth + 1, stack); }
    }
  }

  /** What type a schema counts as does not depend on its properties, on required names or on which values an enum lists. */
  lemma SameTypeOf(spec: Spec, n: Schema, m: Schema, stack: nat)
    requires n.Node? && m.Node? && m == n.(required := m.required, props := m.props, enum := m.enum)
    requires n.ty.Some? || m.enum.Some? == n.enum.Some?
    ensures TypeOf(spec, m, stack) == TypeOf(spec, n, stack)
  {
    assert Resolve(spec, n) == n && Resolve(spec, m) == m;
    hide OptionTypes, Resolve;
  }

  /** A schema given more properties, and for responses another list of values, compares as clean as with itself. */
  lemma AddedPropertiesAreNoBreak(spec: Spec, s: Schema, more: map<string, Schema>, enum: Option<seq<Json>>, where: string, request: bool, depth: nat, stack: nat)
    requires var o := Resolve(spec, s);
      && o.Node? && (forall name :: name in more ==> name !in o.props)
      && (o.ty.Some? || enum.Some? == o.enum.Some?) && (request ==> enum == o.enum)
    requires Regular(spec, s, request, depth, stack)
    ensures var o := Resolve(spec, s);
      Compare(spec, s, spec, o.(props := o.props + more, enum := enum), where, request, depth, stack) == {}
  {
    var o := Resolve(spec, s);
    var n := o.(props := o.props + more, enum := enum);
    assert Resolve(spec, n) == n;
    SelfCompare(spec, s, where, request, depth, stack);
    SameTypeOf(spec, o, n, stack);
    hide Compare, TypeOf, PyIn, Resolve, Regular;
    if depth <= 6 && o != BLANK && n != BLANK {
      CleanSplits(spec, s, spec, s, where, request, depth, stack);
      CleanSplits(spec, s, spec, n, where, request, depth, stack);
      Reported(o, o, where);
      assert request ==> BoundsChange(o, n, where) == BoundsChange(o, o, where);
      forall name | name in o.required && !request ensures name in n.props {
        assert RemovedProperty(where, name) !in RequiredChange(o, o, where, false);
      }
    } else {
      NothingToCompare(spec, s, n, where, request, depth, stack);
    }
  }

  /**
   * `now` is `was` with more properties at any compared level, written there or behind references: every level counts as the
   * same type, a request keeps its bounds, its enum and requires nothing more, and no property or `items` of before is dropped.
   */
  ghost predicate GrownSchema(os: Spec, was: Schema, ns: Spec, now: Schema, request: bool, depth: nat, stack: nat)
    decreases 7 - depth
  {
    var ro, rn := Resolve(os, was), Resolve(ns, now);
    var o, n := View(ro), View(rn);
    depth > 6 || o == BLANK ||
    ( && TypeOf(ns, rn, stack) == TypeOf(os, ro, stack)
      && (request ==> n.bounds == o.bounds && n.enum == o.enum && forall name :: name in n.required ==> name in o.required)
      && (forall name :: name in o.props ==>
            name in n.props && GrownSchema(os, o.props[name], ns, n.props[name], request, depth + 1, stack))
      && (if o.items.Some? then n.items.Some? && GrownSchema(os, o.items.value, ns, n.items.value, request, depth + 1, stack)
          else n.items.None?))
  }

  /** Growing a schema at any level reports nothing it does not report against itself. */
  lemma {:induction false} GrowthAddsNothing(os: Spec, was: Schema, ns: Spec, now: Schema, where: string, request: bool, depth: nat, stack: nat)
    requires GrownSchema(os, was, ns, now, request, depth, stack)
    ensures Compare(os, was, ns, now, where, request, depth, stack) <= Compare(os, was, os, was, where, request, depth, stack)
    decreases 7 - depth
  {
    hide BoundsChange, RequiredChange, Resolve, TypeOf, CompareProps, TypeChange;
    var ro, rn := Resolve(os, was), Resolve(ns, now);
    var o, n := View(ro), View(rn);
    if depth <= 6 && o != BLANK && n != BLANK {
      SameVerdict(os, ro, ns, rn, where, request, stack);
      GrownNode(o, n, where, request);
      forall name | name in o.props
        ensures Compare(os, o.props[name], ns, n.props[name], where + "." + name, request, depth + 1, stack)
             <= Compare(os, o.props[name], os, o.props[name], where + "." + name, request, depth + 1, stack)
      {
        GrowthAddsNothing(os, o.props[name], ns, n.props[name], where + "." + name, request, depth + 1, stack);
      }
      GrownProps(os, o, ns, n, where, request, depth, stack);
      if o.items.Some? {
        GrowthAddsNothing(os, o.items.value, ns, n.items.value, where + "[]", request, depth + 1, stack);
      }
    }
  }

  lemma SameVerdict(os: Spec, o: Schema, ns: Spec, n: Schema, where: string, request: bool, stack: nat)
    requires TypeOf(ns, n, stack) == TypeOf(os, o, stack)
    ensures TypeChange(os, o, ns, n, where, request, stack) == TypeChange(os, o, os, o, where, request, stack)
  {
    hide TypeOf;
  }

  lemma GrownNode(o: Schema, n: Schema, where: string, request: bool)
    requires o.Node? && n.Node?
    requires request ==> n.bounds == o.bounds && n.enum == o.enum && forall name :: name in n.required ==> name in o.required
    requires forall name :: name in o.props ==> name in n.props
    ensures request ==> BoundsChange(o, n, where) == BoundsChange(o, o, where)
    ensures RequiredChange(o, n, where, request) <= RequiredChange(o, o, where, request)
  {
    hide PyIn;
  }

  lemma GrownProps(os: Spec, o: Schema, ns: Spec, n: Schema, where: string, request: bool, depth: nat, stack: nat)
    requires o.Node? && n.Node? && depth <= 6 && forall name :: name in o.props ==> name in n.props
    requires forall name :: name in o.props ==>
      Compare(os, o.props[name], ns, n.props[name], where + "." + name, request, depth + 1, stack)
      <= Compare(os, o.props[name], os, o.props[name], where + "." + name, request, depth + 1, stack)
    ensures CompareProps(os, o, ns, n, where, request, depth, stack) <= CompareProps(os, o, os, o, where, request, depth, stack)
  {
    hide Compare;
    forall f | f in CompareProps(os, o, ns, n, where, request, depth, stack)
      ensures f in CompareProps(os, o, os, o, where, request, depth, stack)
    {
      var name :| name in o.props && name in n.props && f in CompareProp(os, o, ns, n, name, where, request, depth, stack);
      assert f in CompareProp(os, o, os, o, name, where, request, depth, stack);
    }
  }

  lemma NothingToCompare(spec: Spec, s: Schema, n: Schema, where: string, request: bool, depth: nat, stack: nat)
    requires depth > 6 || View(Resolve(spec, s)) == BLANK || View(Resolve(spec, n)) == BLANK
    ensures Compare(spec, s, spec, n, where, request, depth, stack) == {}
  {
  }

  // ---------------------------------------------------------------- three releases

  /** The middle release says something wherever the outer two do, and drops nothing that comes back. */
  ghost predicate Bridges(os: Spec, o: Schema, ms: Spec, m: Schema, ns: Spec, n: Schema, request: bool, depth: nat, stack: nat)
    decreases 7 - depth
  {
    var ro, rm, rn := Resolve(os, o), Resolve(ms, m), Resolve(ns, n);
    var vo, vm, vn := View(ro), View(rm), View(rn);
    depth > 6 || vo == BLANK || vn == BLANK ||
    ( && vm != BLANK && TypeOf(ms, rm, stack) != Some({"any"})
      && (!request ==> forall name :: name in vo.required ==> name in vm.required)
      && (forall name :: name in vo.props && name in vn.props ==>
            && name in vm.props
            && Bridges(os, vo.props[name], ms, vm.props[name], ns, vn.props[name], request, depth + 1, stack))
      && (vo.items.Some? && vn.items.Some? ==>
            && vm.items.Some?
            && Bridges(os, vo.items.value, ms, vm.items.value, ns, vn.items.value, request, depth + 1, stack)))
  }

  lemma {:induction false} PyTransitive(a: Json, b: Json, c: Json)
    requires PyEqual(a, b) && PyEqual(b, c)
    ensures PyEqual(a, c)
    decreases a
  {
    match a
    case Arr(es) =>
      forall i | 0 <= i < |es| ensures PyEqual(es[i], c.elements[i]) { PyTransitive(es[i], b.elements[i], c.elements[i]); }
    case Obj(fs) =>
      forall k | k in fs ensures PyEqual(fs[k], c.fields[k]) { PyTransitive(fs[k], b.fields[k], c.fields[k]); }
    case _ =>
  }

  lemma TypesCompose(os: Spec, o: Schema, ms: Spec, m: Schema, ns: Spec, n: Schema, where: string, request: bool, stack: nat)
    requires TypeOf(ms, m, stack) != Some({"any"})
    requires TypeChange(os, o, ms, m, where, request, stack) == {} && TypeChange(ms, m, ns, n, where, request, stack) == {}
    ensures TypeChange(os, o, ns, n, where, request, stack) == {}
  {
    hide TypeOf;
  }

  lemma BoundsCompose(o: Schema, m: Schema, n: Schema, where: string)
    requires o.Node? && m.Node? && n.Node?
    requires BoundsChange(o, m, where) == {} && BoundsChange(m, n, where) == {}
    ensures BoundsChange(o, n, where) == {}
  {
    Reported(o, m, where);
    Reported(m, n, where);
    if n.enum.Some? {
      assert EnumLost(where) !in BoundsChange(o, m, where) && EnumLost(where) !in BoundsChange(m, n, where);
      forall i | 0 <= i < |o.enum.value| ensures PyIn(o.enum.value[i], n.enum.value) {
        var k :| 0 <= k < |m.enum.value| && PyEqual(o.enum.value[i], m.enum.value[k]);
        var l :| 0 <= l < |n.enum.value| && PyEqual(m.enum.value[k], n.enum.value[l]);
        PyTransitive(o.enum.value[i], m.enum.value[k], n.enum.value[l]);
      }
    }
    NoneStricter(o, m, n);
  }

  lemma NoneStricter(o: Schema, m: Schema, n: Schema)
    requires o.Node? && m.Node? && n.Node?
    requires forall key :: !Stricter(o.bounds, m.bounds, key) && !Stricter(m.bounds, n.bounds, key)
    ensures forall key :: !Stricter(o.bounds, n.bounds, key)
  {
    forall key ensures !Stricter(o.bounds, n.bounds, key) {
      assert !Stricter(o.bounds, m.bounds, key) && !Stricter(m.bounds, n.bounds, key);
    }
  }

  lemma RequiredComposes(o: Schema, m: Schema, n: Schema, where: string, request: bool)
    requires o.Node? && m.Node? && n.Node? && (!request ==> forall name :: name in o.required ==> name in m.required)
    requires RequiredChange(o, m, where, request) == {} && RequiredChange(m, n, where, request) == {}
    ensures RequiredChange(o, n, where, request) == {}
  {
    Reported(o, m, where);
    Reported(m, n, where);
  }

  /** Two clean comparisons in a row make a clean comparison of the first release with the third. */
  lemma {:induction false} CleanComposes(
      os: Spec, o: Schema, ms: Spec, m: Schema, ns: Spec, n: Schema, where: string, request: bool, depth: nat, stack: nat)
    requires Bridges(os, o, ms, m, ns, n, request, depth, stack)
    requires Compare(os, o, ms, m, where, request, depth, stack) == {} && Compare(ms, m, ns, n, where, request, depth, stack) == {}
    ensures Compare(os, o, ns, n, where, request, depth, stack) == {}
    decreases 7 - depth
  {
    var ro, rm, rn := Resolve(os, o), Resolve(ms, m), Resolve(ns, n);
    var vo, vm, vn := View(ro), View(rm), View(rn);
    hide TypeChange, BoundsChange, RequiredChange, Resolve, TypeOf;
    if depth <= 6 && vo != BLANK && vn != BLANK {
      CleanSplits(os, o, ms, m, where, request, depth, stack);
      CleanSplits(ms, m, ns, n, where, request, depth, stack);
      CleanSplits(os, o, ns, n, where, request, depth, stack);
      TypesCompose(os, ro, ms, rm, ns, rn, where, request, stack);
      if request { BoundsCompose(vo, vm, vn, where); }
      RequiredComposes(vo, vm, vn, where, request);
      forall name | name in vo.props && name in vn.props
        ensures Compare(os, vo.props[name], ns, vn.props[name], where + "." + name, request, depth + 1, stack) == {}
      {
        CleanComposes(os, vo.props[name], ms, vm.props[name], ns, vn.props[name], where + "." + name, request, depth + 1, stack);
      }
      if vo.items.Some? && vn.items.Some? {
        CleanComposes(os, vo.items.value, ms, vm.items.value, ns, vn.items.value, where + "[]", request, depth + 1, stack);
      }
    }
  }

  // ---------------------------------------------------------------- type_of and recursion

  /** A deeper stack never changes an answer. */
  lemma {:induction false} TypeSettles(spec: Spec, s: Schema, stack: nat, more: nat)
    requires stack <= more && TypeOf(spec, s, stack).Some?
    ensures TypeOf(spec, s, more) == TypeOf(spec, s, stack)
    decreases stack, 1, 0
  {
    var n := View(Resolve(spec, s));
    var options := if n.anyOf != [] then n.anyOf else n.oneOf;
    if n.ty.None? && options != [] { OptionsSettle(spec, options, stack - 1, more - 1); }
  }

  lemma {:induction false} OptionsSettle(spec: Spec, options: seq<Schema>, stack: nat, more: nat)
    requires stack <= more && OptionTypes(spec, options, stack).Some?
    ensures OptionTypes(spec, options, more) == OptionTypes(spec, options, stack)
    decreases stack, 2, |options|
  {
    if options != [] {
      TypeSettles(spec, options[0], stack, more);
      OptionsSettle(spec, options[1..], stack, more);
    }
  }

  /** The schemas whose types `type_of` asks for to tell the type of `s`. */
  function Asked(spec: Spec, s: Schema): seq<Schema> {
    var n := View(Resolve(spec, s));
    if n.ty.Some? then [] else if n.anyOf != [] then n.anyOf else n.oneOf
  }

  lemma {:induction false} AllAnswer(spec: Spec, options: seq<Schema>, stack: nat)
    ensures OptionTypes(spec, options, stack).Some? <==> forall o :: o in options ==> TypeOf(spec, o, stack).Some?
    decreases |options|
  {
    hide TypeOf;
    if options != [] {
      AllAnswer(spec, options[1..], stack);
      assert OptionTypes(spec, options, stack).Some?
        <==> TypeOf(spec, options[0], stack).Some? && OptionTypes(spec, options[1..], stack).Some?;
      assert forall o :: o in options <==> o == options[0] || o in options[1..];
    }
  }

  /** A schema gets a type exactly when all it asks for get theirs one level down. */
  lemma AskedAnswer(spec: Spec, s: Schema, stack: nat)
    ensures TypeOf(spec, s, stack).Some? <==> stack > 0 && forall o :: o in Asked(spec, s) ==> TypeOf(spec, o, stack - 1).Some?
  {
    if stack > 0 {
      hide Resolve;
      AllAnswer(spec, Asked(spec, s), stack - 1);
      hide OptionTypes;
    }
  }

  /** A rank for `s` and all that is asked below it, smaller at every step. */
  ghost predicate Descends(spec: Spec, rank: map<Schema, nat>, s: Schema) {
    && s in rank
    && forall t, o :: t in rank && o in Asked(spec, t) ==> o in rank && rank[o] < rank[t]
  }

  /** The rank bounds the depth of the recursion. */
  lemma {:induction false} RankSuffices(spec: Spec, rank: map<Schema, nat>, s: Schema)
    requires Descends(spec, rank, s)
    ensures TypeOf(spec, s, rank[s] + 1).Some?
    decreases rank[s]
  {
    hide TypeOf, Asked;
    forall o | o in Asked(spec, s) ensures TypeOf(spec, o, rank[s]).Some? {
      RankSuffices(spec, rank, o);
      TypeSettles(spec, o, rank[o] + 1, rank[s]);
    }
    AskedAnswer(spec, s, rank[s] + 1);
  }

  /** The least stack that gives `s` a type. */
  ghost function Needed(spec: Spec, s: Schema, stack: nat): (k: nat)
    requires TypeOf(spec, s, stack).Some?
    ensures k <= stack && TypeOf(spec, s, k).Some? && forall j: nat :: j < k ==> TypeOf(spec, s, j).None?
    decreases stack
  {
    if stack > 0 && TypeOf(spec, s, stack - 1).Some? then Needed(spec, s, stack - 1)
    else NothingLess(spec, s, stack); stack
  }

  lemma NothingLess(spec: Spec, s: Schema, stack: nat)
    requires stack > 0 ==> TypeOf(spec, s, stack - 1).None?
    ensures forall j: nat :: j < stack ==> TypeOf(spec, s, j).None?
  {
    hide TypeOf;
    forall j: nat | j < stack ensures TypeOf(spec, s, j).None? {
      if TypeOf(spec, s, j).Some? {
        TypeSettles(spec, s, j, stack - 1);
        assert false;
      }
    }
  }

  /** All that is asked for `s`, `stack` levels deep. */
  ghost function Below(spec: Spec, s: Schema, stack: nat): set<Schema>
    decreases stack, 1, 0
  {
    {s} + if stack == 0 then {} else BelowAny(spec, Asked(spec, s), stack - 1)
  }

  ghost function BelowAny(spec: Spec, options: seq<Schema>, stack: nat): set<Schema>
    decreases stack, 2, |options|
  {
    if options == [] then {} else Below(spec, options[0], stack) + BelowAny(spec, options[1..], stack)
  }

  lemma {:induction false} BelowSome(spec: Spec, options: seq<Schema>, stack: nat, t: Schema)
    ensures t in BelowAny(spec, options, stack) <==> exists o :: o in options && t in Below(spec, o, stack)
    decreases |options|
  {
    hide Below;
    if options != [] {
      BelowSome(spec, options[1..], stack, t);
      assert t in BelowAny(spec, options, stack) <==> t in Below(spec, options[0], stack) || t in BelowAny(spec, options[1..], stack);
      assert forall o :: o in options <==> o == options[0] || o in options[1..];
    }
  }

  lemma SelfBelow(spec: Spec, s: Schema, stack: nat)
    ensures s in Below(spec, s, stack)
  {
  }

  lemma BelowSplits(spec: Spec, s: Schema, stack: nat, t: Schema)
    requires stack > 0
    ensures t in Below(spec, s, stack) <==> t == s || exists o :: o in Asked(spec, s) && t in Below(spec, o, stack - 1)
  {
    BelowSome(spec, Asked(spec, s), stack - 1, t);
    hide BelowAny, Asked;
  }

  lemma {:induction false} BelowIsClosed(spec: Spec, s: Schema, stack: nat, t: Schema, o: Schema)
    requires TypeOf(spec, s, stack).Some? && t in Below(spec, s, stack) && o in Asked(spec, t)
    ensures o in Below(spec, s, stack)
    decreases stack
  {
    hide TypeOf, Asked, Below;
    AskedAnswer(spec, s, stack);
    BelowSplits(spec, s, stack, t);
    BelowSplits(spec, s, stack, o);
    if t == s {
      SelfBelow(spec, o, stack - 1);
    } else {
      var p :| p in Asked(spec, s) && t in Below(spec, p, stack - 1);
      BelowIsClosed(spec, p, stack - 1, t, o);
    }
  }

  lemma {:induction false} BelowAnswers(spec: Spec, s: Schema, stack: nat, t: Schema)
    requires TypeOf(spec, s, stack).Some? && t in Below(spec, s, stack)
    ensures TypeOf(spec, t, stack).Some?
    decreases stack
  {
    hide TypeOf, Asked, Below;
    AskedAnswer(spec, s, stack);
    BelowSplits(spec, s, stack, t);
    if t != s {
      var o :| o in Asked(spec, s) && t in Below(spec, o, stack - 1);
      BelowAnswers(spec, o, stack - 1, t);
      TypeSettles(spec, t, stack - 1, stack);
    }
  }

  lemma {:induction false} AnswerGivesRank(spec: Spec, s: Schema, stack: nat) returns (rank: map<Schema, nat>)
    requires TypeOf(spec, s, stack).Some?
    ensures Descends(spec, rank, s)
  {
    hide TypeOf, Asked, Below, Needed;
    var inside := Below(spec, s, stack);
    forall t | t in inside ensures TypeOf(spec, t, stack).Some? { BelowAnswers(spec, s, stack, t); }
    rank := map t | t in inside :: Needed(spec, t, stack);
    SelfBelow(spec, s, stack);
    forall t, o | t in rank && o in Asked(spec, t) ensures o in rank && rank[o] < rank[t] {
      BelowIsClosed(spec, s, stack, t, o);
      NeededFalls(spec, t, o, stack);
    }
  }

  lemma NeededFalls(spec: Spec, t: Schema, o: Schema, stack: nat)
    requires TypeOf(spec, t, stack).Some? && o in Asked(spec, t) && TypeOf(spec, o, stack).Some?
    ensures Needed(spec, o, stack) < Needed(spec, t, stack)
  {
    hide TypeOf, Asked;
    var k := Needed(spec, t, stack);
    AskedAnswer(spec, t, k);
    assert TypeOf(spec, o, k - 1).Some?;
  }

  /** `type_of` ends exactly when some rank falls at every step from a schema to an option it asks for. */
  lemma {:induction false} TypeEndsExactly(spec: Spec, s: Schema)
    ensures (exists stack: nat :: TypeOf(spec, s, stack).Some?) <==> (exists rank :: Descends(spec, rank, s))
  {
    hide TypeOf, Descends;
    if stack: nat :| TypeOf(spec, s, stack).Some? {
      var rank := AnswerGivesRank(spec, s, stack);
      assert Descends(spec, rank, s);
    }
    if rank :| Descends(spec, rank, s) {
      assert s in rank by { RankedSelf(spec, rank, s); }
      RankSuffices(spec, rank, s);
      assert TypeOf(spec, s, rank[s] + 1).Some?;
    }
  }

  lemma RankedSelf(spec: Spec, rank: map<Schema, nat>, s: Schema)
    requires Descends(spec, rank, s)
    ensures s in rank
  {
  }

  /** A way from one schema to another along what `type_of` asks. */
  ghost predicate Way(spec: Spec, way: seq<Schema>) {
    forall i :: 0 < i < |way| ==> way[i] in Asked(spec, way[i - 1])
  }

  lemma {:induction false} AlongTheWay(spec: Spec, way: seq<Schema>, i: nat, stack: nat)
    requires i < |way| && Way(spec, way) && TypeOf(spec, way[0], stack).Some?
    ensures i < stack && TypeOf(spec, way[i], stack - i).Some?
    decreases i
  {
    hide TypeOf, Asked;
    if i == 0 {
      AskedAnswer(spec, way[0], stack);
    } else {
      AlongTheWay(spec, way, i - 1, stack);
      AskedAnswer(spec, way[i - 1], stack - i + 1);
      AskedAnswer(spec, way[i], stack - i);
    }
  }

  /** A schema among its own options, at any distance, never gets a type: `type_of` has no depth bound of its own. */
  lemma {:induction false} OptionCycleNeverEnds(spec: Spec, way: seq<Schema>, stack: nat)
    requires |way| > 1 && Way(spec, way) && way[0] == way[|way| - 1]
    ensures TypeOf(spec, way[0], stack) == None
    decreases stack
  {
    hide TypeOf, Way;
    if TypeOf(spec, way[0], stack).Some? {
      AlongTheWay(spec, way, |way| - 1, stack);
      OptionCycleNeverEnds(spec, way, stack - (|way| - 1));
      assert false;
    }
  }

  /** The shortest such way. */
  lemma {:induction false} SelfOptionNeverEnds(stack: nat)
    ensures TypeOf(map["A" := BLANK.(anyOf := [Ref("A")])], Ref("A"), stack) == None
  {
    var spec: Spec := map["A" := BLANK.(anyOf := [Ref("A")])];
    assert Chase(spec, Ref("A"), 12) == Chase(spec, spec["A"], 11) == spec["A"];
    assert Asked(spec, Ref("A")) == [Ref("A")];
    OptionCycleNeverEnds(spec, [Ref("A"), Ref("A")], stack);
  }

  // ---------------------------------------------------------------- where a clean comparison promises nothing

  /** Nothing below the sixth level is compared: `k` levels of one property hide any change under them. */
  function Nested(k: nat, s: Schema): Schema {
    if k == 0 then s else BLANK.(ty := Some("object"), props := map["p" := Nested(k - 1, s)])
  }

  function NestedJson(k: nat, j: Json): Json {
    if k == 0 then j else Obj(map["p" := NestedJson(k - 1, j)])
  }

  lemma NestedNode(a: Schema, b: Schema, where: string, request: bool, stack: nat)
    requires stack > 0
    ensures var o := BLANK.(ty := Some("object"), props := map["p" := a]);
      var n := BLANK.(ty := Some("object"), props := map["p" := b]);
      && Resolve(map[], o) == o && Resolve(map[], n) == n && BoundsChange(o, n, where) == {}
      && RequiredChange(o, n, where, request) == {} && TypeChange(map[], o, map[], n, where, request, stack) == {}
  {
    var o, n := BLANK.(ty := Some("object"), props := map["p" := a]), BLANK.(ty := Some("object"), props := map["p" := b]);
    assert TypeOf(map[], o, stack) == TypeOf(map[], n, stack) == Some({"object"});
  }

  lemma {:induction false} DeepChangesAreInvisible(k: nat, a: Schema, b: Schema, where: string, request: bool, depth: nat, stack: nat)
    requires depth + k > 6 && stack > 0
    ensures Compare(map[], Nested(k, a), map[], Nested(k, b), where, request, depth, stack) == {}
    decreases k
  {
    hide BoundsChange, RequiredChange, TypeChange, Resolve;
    if depth <= 6 {
      DeepChangesAreInvisible(k - 1, a, b, where + "." + "p", request, depth + 1, stack);
      NestedNode(Nested(k - 1, a), Nested(k - 1, b), where, request, stack);
      CleanSplits(map[], Nested(k, a), map[], Nested(k, b), where, request, depth, stack);
    }
  }

  lemma OneProperty(s: Schema, j: Json, matches: (string, string) -> bool)
    ensures Valid(map[], BLANK.(ty := Some("object"), props := map["p" := s]), Obj(map["p" := j]), matches)
      <==> Valid(map[], s, j, matches)
  {
    var n, v := BLANK.(ty := Some("object"), props := map["p" := s]), Obj(map["p" := j]);
    assert Meaning(map[], n) == n;
    hide Meaning;
    assert "p" in n.props && "p" in v.fields && n.props["p"] == s && v.fields["p"] == j;
  }

  lemma {:induction false} NestedValid(k: nat, s: Schema, j: Json, matches: (string, string) -> bool)
    ensures Valid(map[], Nested(k, s), NestedJson(k, j), matches) <==> Valid(map[], s, j, matches)
    decreases k
  {
    hide Valid;
    if k > 0 {
      NestedValid(k - 1, s, j, matches);
      OneProperty(Nested(k - 1, s), NestedJson(k - 1, j), matches);
    }
  }

  // ---------------------------------------------------------------- when a change that goes unreported is harmless

  /** Every value the old schema takes with declared properties only is one the new schema takes. */
  ghost predicate StillTakes(spec: Spec, o: Schema, n: Schema, matches: (string, string) -> bool) {
    forall j :: Valid(spec, o, j, matches) && Declared(spec, o, j) ==> Valid(spec, n, j, matches)
  }

  /** The same for values with undeclared properties as well. */
  ghost predicate TakesAsBefore(spec: Spec, o: Schema, n: Schema, matches: (string, string) -> bool) {
    forall j :: Valid(spec, o, j, matches) ==> Valid(spec, n, j, matches)
  }

  ghost predicate TakesAll(spec: Spec, s: Schema, matches: (string, string) -> bool) {
    forall j :: Valid(spec, s, j, matches)
  }

  lemma NodeMeaning(spec: Spec, n: Schema)
    requires n.Node?
    ensures Meaning(spec, n) == n
  {
  }

  /** The node's own keywords, then what is below it. */
  lemma ValidSplits(spec: Spec, n: Schema, j: Json, matches: (string, string) -> bool)
    requires n.Node?
    ensures Valid(spec, n, j, matches) <==>
      && NodeFits(n, j, matches)
      && (j.Obj? ==> forall name :: name in n.props && name in j.fields ==> Valid(spec, n.props[name], j.fields[name], matches))
      && (j.Arr? && n.items.Some? ==> forall i :: 0 <= i < |j.elements| ==> Valid(spec, n.items.value, j.elements[i], matches))
  {
    NodeMeaning(spec, n);
    hide Meaning;
  }

  lemma ArrayDeclared(spec: Spec, n: Schema, j: Json)
    requires n.Node? && n.items.None? && !j.Obj?
    ensures Declared(spec, n, j)
  {
    NodeMeaning(spec, n);
    hide Meaning;
  }

  /** `es` with `v` in the first place. */
  lemma ArrayWith(n: Schema, es: seq<Json>, v: Json, matches: (string, string) -> bool)
    requires n.Node? && n.enum.None? && es != [] && NodeFits(n, Arr(es), matches)
    ensures NodeFits(n, Arr(es[0 := v]), matches)
  {
    forall key | key in n.bounds ensures InBound(key, n.bounds[key], Arr(es[0 := v])) {
      assert InBound(key, n.bounds[key], Arr(es));
    }
  }

  /**
   * `items` given to a node that had none are harmless exactly when they take every value, where the old node takes some array
   * that is not empty and lists no whole values.
   */
  lemma AddedItemsAreExact(spec: Spec, o: Schema, items: Schema, some: Json, matches: (string, string) -> bool)
    requires o.Node? && o.items.None? && o.enum.None?
    requires some.Arr? && some.elements != [] && Valid(spec, o, some, matches)
    ensures StillTakes(spec, o, o.(items := Some(items)), matches) <==> TakesAll(spec, items, matches)
  {
    var n := o.(items := Some(items));
    hide Valid, Declared, NodeFits;
    ValidSplits(spec, o, some, matches);
    forall v ensures StillTakes(spec, o, n, matches) ==> Valid(spec, items, v, matches) {
      var j := Arr(some.elements[0 := v]);
      ArrayWith(o, some.elements, v, matches);
      ValidSplits(spec, o, j, matches);
      ValidSplits(spec, n, j, matches);
      ArrayDeclared(spec, o, j);
      assert j.elements[0] == v;
    }
    forall j | Valid(spec, o, j, matches) && TakesAll(spec, items, matches) ensures Valid(spec, n, j, matches) {
      ValidSplits(spec, o, j, matches);
      ValidSplits(spec, n, j, matches);
      SameFits(o, n, j, matches);
    }
  }

  /** Properties and items play no part in a node's own keywords. */
  lemma SameFits(o: Schema, n: Schema, j: Json, matches: (string, string) -> bool)
    requires o.Node? && n.Node? && n == o.(items := n.items, props := n.props)
    ensures NodeFits(n, j, matches) == NodeFits(o, j, matches)
  {
  }

  lemma ObjectWith(o: Schema, fields: map<string, Json>, name: string, v: Json, matches: (string, string) -> bool)
    requires o.Node? && o.enum.None? && NodeFits(o, Obj(fields), matches)
    ensures NodeFits(o, Obj(fields[name := v]), matches)
  {
    forall key | key in o.bounds ensures InBound(key, o.bounds[key], Obj(fields[name := v])) {
      assert InBound(key, o.bounds[key], Obj(fields));
    }
  }

  /**
   * A property declared for a name that could be sent undeclared is harmless to every value of before, undeclared names
   * included, exactly when it takes every value, where the old node takes some object and lists no whole values.
   */
  lemma AddedPropertyIsExact(spec: Spec, o: Schema, name: string, s: Schema, some: Json, matches: (string, string) -> bool)
    requires o.Node? && name !in o.props && o.enum.None? && some.Obj? && Valid(spec, o, some, matches)
    ensures TakesAsBefore(spec, o, o.(props := o.props[name := s]), matches) <==> TakesAll(spec, s, matches)
  {
    var n := o.(props := o.props[name := s]);
    hide Valid, NodeFits;
    ValidSplits(spec, o, some, matches);
    forall v ensures TakesAsBefore(spec, o, n, matches) ==> Valid(spec, s, v, matches) {
      var j := Obj(some.fields[name := v]);
      ObjectWith(o, some.fields, name, v, matches);
      ValidSplits(spec, o, j, matches);
      ValidSplits(spec, n, j, matches);
      assert name in n.props && name in j.fields && j.fields[name] == v && n.props[name] == s;
    }
    forall j | Valid(spec, o, j, matches) && TakesAll(spec, s, matches) ensures Valid(spec, n, j, matches) {
      ValidSplits(spec, o, j, matches);
      ValidSplits(spec, n, j, matches);
      SameFits(o, n, j, matches);
    }
  }

  /** ... while values that send only declared names are never affected by it. */
  lemma AddedPropertyIsSafe(spec: Spec, o: Schema, name: string, s: Schema, matches: (string, string) -> bool)
    requires o.Node? && name !in o.props
    ensures StillTakes(spec, o, o.(props := o.props[name := s]), matches)
  {
    var n := o.(props := o.props[name := s]);
    hide Valid, NodeFits;
    forall j | Valid(spec, o, j, matches) && Declared(spec, o, j) ensures Valid(spec, n, j, matches) {
      NodeMeaning(spec, o);
      ValidSplits(spec, o, j, matches);
      ValidSplits(spec, n, j, matches);
      SameFits(o, n, j, matches);
    }
  }

  /** A type adds one demand. */
  lemma TypedFits(o: Schema, ty: string, j: Json, matches: (string, string) -> bool)
    requires o.Node? && o.ty.None?
    ensures NodeFits(o.(ty := Some(ty)), j, matches) <==> NodeFits(o, j, matches) && HasType(ty, j)
  {
  }

  /**
   * A type given to a node that had none is harmless exactly when the node lists its values and those it takes have the type;
   * without a list it always took both null and booleans.
   */
  lemma AddedTypeIsExact(spec: Spec, o: Schema, ty: string, matches: (string, string) -> bool)
    requires o.Node? && o.ty.None?
    ensures StillTakes(spec, o, o.(ty := Some(ty)), matches) <==>
      && o.enum.Some?
      && forall v :: v in o.enum.value && Valid(spec, o, v, matches) && Declared(spec, o, v) ==> HasType(ty, v)
  {
    var n := o.(ty := Some(ty));
    hide Valid, Declared, NodeFits, HasType;
    forall j ensures Valid(spec, n, j, matches) <==> Valid(spec, o, j, matches) && HasType(ty, j) {
      ValidSplits(spec, o, j, matches);
      ValidSplits(spec, n, j, matches);
      TypedFits(o, ty, j, matches);
    }
    if o.enum.None? {
      TakesScalars(spec, o, matches);
      NullOrBool(ty);
    } else {
      forall j | Valid(spec, o, j, matches) ensures j in o.enum.value {
        ValidSplits(spec, o, j, matches);
        EnumFits(o, j, matches);
      }
    }
  }

  lemma EnumFits(o: Schema, j: Json, matches: (string, string) -> bool)
    requires o.Node? && o.enum.Some? && NodeFits(o, j, matches)
    ensures j in o.enum.value
  {
  }

  lemma NullOrBool(ty: string)
    ensures !HasType(ty, Null) || !HasType(ty, Bool(true))
  {
    assert "null"[0] != "boolean"[0];
  }

  lemma TakesScalars(spec: Spec, o: Schema, matches: (string, string) -> bool)
    requires o.Node? && o.ty.None? && o.enum.None?
    ensures Valid(spec, o, Null, matches) && Declared(spec, o, Null)
    ensures Valid(spec, o, Bool(true), matches) && Declared(spec, o, Bool(true))
  {
    NodeMeaning(spec, o);
    hide Meaning;
  }

  /** The node's own keywords let the string through. */
  ghost predicate LetsThrough(o: Schema, t: string)
    requires o.Node?
  {
    && (o.ty.Some? ==> o.ty.value == "string")
    && (o.enum.Some? ==> Str(t) in o.enum.value)
    && forall key :: key in o.bounds ==> InBound(key, o.bounds[key], Str(t))
  }

  /** A pattern given to a node that had none is harmless exactly when every string the node lets through matches it. */
  lemma AddedPatternIsExact(spec: Spec, o: Schema, p: string, matches: (string, string) -> bool)
    requires o.Node? && o.pattern.None?
    ensures StillTakes(spec, o, o.(pattern := Some(p)), matches) <==> forall t :: LetsThrough(o, t) ==> matches(p, t)
  {
    var n := o.(pattern := Some(p));
    hide Valid, Declared, NodeFits, LetsThrough;
    forall j ensures Valid(spec, n, j, matches) <==> Valid(spec, o, j, matches) && (j.Str? ==> matches(p, j.s)) {
      ValidSplits(spec, o, j, matches);
      ValidSplits(spec, n, j, matches);
      PatternFits(o, p, j, matches);
    }
    forall t: string ensures LetsThrough(o, t) <==> Valid(spec, o, Str(t), matches) && Declared(spec, o, Str(t)) {
      ValidSplits(spec, o, Str(t), matches);
      StringFits(spec, o, t, matches);
    }
    if t :| LetsThrough(o, t) && !matches(p, t) { assert !Valid(spec, n, Str(t), matches); }
  }

  lemma PatternFits(o: Schema, p: string, j: Json, matches: (string, string) -> bool)
    requires o.Node? && o.pattern.None?
    ensures NodeFits(o.(pattern := Some(p)), j, matches) <==> NodeFits(o, j, matches) && (j.Str? ==> matches(p, j.s))
  {
  }

  lemma StringFits(spec: Spec, o: Schema, t: string, matches: (string, string) -> bool)
    requires o.Node? && o.pattern.None?
    ensures NodeFits(o, Str(t), matches) <==> LetsThrough(o, t)
    ensures Declared(spec, o, Str(t))
  {
  }

  /** None of these changes is read: a pattern, items on one side only, or a type where nothing was said. */
  lemma UnreadKeywords(spec: Spec, o: Schema, n: Schema, where: string, request: bool, depth: nat, stack: nat)
    requires o.Node? && n.Node? && n == o.(items := n.items, pattern := n.pattern, ty := n.ty)
    requires n.items == o.items || o.items.None? || n.items.None?
    requires n.ty == o.ty || (n.ty.Some? && TypeOf(spec, o, stack) == Some({"any"}))
    ensures Compare(spec, o, spec, n, where, request, depth, stack) <= Compare(spec, o, spec, o, where, request, depth, stack)
  {
    hide BoundsChange, RequiredChange, Resolve, TypeOf, CompareProps, TypeChange;
    NodeResolves(spec, o);
    NodeResolves(spec, n);
    if depth <= 6 && o != BLANK && n != BLANK {
      UnreadType(spec, o, n, where, request, stack);
      UnreadNode(o, n, where, request);
      SamePropsUnder(spec, o, n, where, request, depth, stack);
    }
  }

  lemma UnreadType(spec: Spec, o: Schema, n: Schema, where: string, request: bool, stack: nat)
    requires o.Node? && n.Node? && n == o.(items := n.items, pattern := n.pattern, ty := n.ty)
    requires n.ty == o.ty || (n.ty.Some? && TypeOf(spec, o, stack) == Some({"any"}))
    ensures TypeChange(spec, o, spec, n, where, request, stack) == TypeChange(spec, o, spec, o, where, request, stack)
  {
    NodeResolves(spec, o);
    NodeResolves(spec, n);
    hide Resolve, OptionTypes;
  }

  lemma UnreadNode(o: Schema, n: Schema, where: string, request: bool)
    requires o.Node? && n.Node? && n == o.(items := n.items, pattern := n.pattern, ty := n.ty)
    ensures BoundsChange(o, n, where) == BoundsChange(o, o, where)
    ensures RequiredChange(o, n, where, request) == RequiredChange(o, o, where, request)
  {
    hide PyIn;
  }

  lemma SamePropsUnder(spec: Spec, o: Schema, n: Schema, where: string, request: bool, depth: nat, stack: nat)
    requires depth <= 6 && o.Node? && n.Node? && n.props == o.props
    ensures CompareProps(spec, o, spec, n, where, request, depth, stack) == CompareProps(spec, o, spec, o, where, request, depth, stack)
  {
    hide Compare;
    forall name | name in o.props
      ensures CompareProp(spec, o, spec, n, name, where, request, depth, stack) == CompareProp(spec, o, spec, o, name, where, request, depth, stack)
    {
    }
  }

  /** Another enum is harmless exactly when it lists every value of the old one that the node takes. */
  lemma ChangedEnumIsExact(spec: Spec, o: Schema, values: seq<Json>, matches: (string, string) -> bool)
    requires o.Node? && o.enum.Some?
    ensures StillTakes(spec, o, o.(enum := Some(values)), matches) <==>
      forall v :: v in o.enum.value && Valid(spec, o, v, matches) && Declared(spec, o, v) ==> v in values
  {
    var n := o.(enum := Some(values));
    hide Valid, Declared, NodeFits;
    forall j | Valid(spec, o, j, matches) ensures j in o.enum.value && (Valid(spec, n, j, matches) <==> j in values) {
      ValidSplits(spec, o, j, matches);
      ValidSplits(spec, n, j, matches);
      EnumFits(o, j, matches);
      ListedFits(o, values, j, matches);
    }
  }

  lemma ListedFits(o: Schema, values: seq<Json>, j: Json, matches: (string, string) -> bool)
    requires o.Node? && NodeFits(o, j, matches)
    ensures NodeFits(o.(enum := Some(values)), j, matches) <==> j in values
  {
  }

  // ---------------------------------------------------------------- the smallest examples

  const STRING := BLANK.(ty := Some("string"))
  const LIST := BLANK.(ty := Some("array"))

  /** What a leaf-only comparison comes to. */
  lemma LeafClean(o: Schema, n: Schema, request: bool, stack: nat)
    requires stack > 0 && o.Node? && n.Node? && o != BLANK && n != BLANK && o.props == map[] && n.props == map[]
    requires o.items.None? || n.items.None?
    requires TypeChange(map[], o, map[], n, "body", request, stack) == {}
    requires BoundsChange(o, n, "body") == {} && RequiredChange(o, n, "body", request) == {}
    ensures Compare(map[], o, map[], n, "body", request, 0, stack) == {}
  {
    CleanSplits(map[], o, map[], n, "body", request, 0, stack);
  }

  /** `items` added to an array that had none is not reported. */
  lemma AddedItemsEscape(stack: nat, matches: (string, string) -> bool)
    requires stack > 0
    ensures var n := LIST.(items := Some(STRING)); var j := Arr([Num(1.0)]);
      && Compare(map[], LIST, map[], n, "body", true, 0, stack) == {}
      && Valid(map[], LIST, j, matches) && Declared(map[], LIST, j) && !Valid(map[], n, j, matches)
  {
    var n, j := LIST.(items := Some(STRING)), Arr([Num(1.0)]);
    assert TypeOf(map[], LIST, stack) == TypeOf(map[], n, stack) == Some({"array"});
    Reported(LIST, n, "body");
    LeafClean(LIST, n, true, stack);
    assert Meaning(map[], LIST) == LIST && Meaning(map[], n) == n && Meaning(map[], STRING) == STRING;
    assert !Valid(map[], STRING, j.elements[0], matches);
  }

  /** A type given to a schema that had none is not reported. */
  lemma AddedTypeEscapes(stack: nat, matches: (string, string) -> bool)
    requires stack > 0
    ensures var o := BLANK.(other := true); var j := Num(1.0);
      && Compare(map[], o, map[], STRING, "body", true, 0, stack) == {}
      && Valid(map[], o, j, matches) && Declared(map[], o, j) && !Valid(map[], STRING, j, matches)
  {
    var o, j := BLANK.(other := true), Num(1.0);
    assert TypeOf(map[], o, stack) == Some({"any"});
    assert TypeOf(map[], STRING, stack) == Some({"string"});
    Reported(o, STRING, "body");
    LeafClean(o, STRING, true, stack);
    assert Meaning(map[], STRING) == STRING && Meaning(map[], o) == o;
  }

  /** A pattern that was not there before is not reported. */
  lemma AddedPatternEscapes(stack: nat, p: string, t: string, matches: (string, string) -> bool)
    requires stack > 0 && !matches(p, t)
    ensures var n := STRING.(pattern := Some(p));
      && Compare(map[], STRING, map[], n, "body", true, 0, stack) == {}
      && Valid(map[], STRING, Str(t), matches) && !Valid(map[], n, Str(t), matches)
  {
    var n := STRING.(pattern := Some(p));
    assert TypeOf(map[], STRING, stack) == TypeOf(map[], n, stack) == Some({"string"});
    Reported(STRING, n, "body");
    LeafClean(STRING, n, true, stack);
    assert Meaning(map[], STRING) == STRING && Meaning(map[], n) == n;
  }

  /** A new property takes the name of something callers could already send undeclared, and is not reported. */
  lemma UndeclaredEscapes(stack: nat, matches: (string, string) -> bool)
    requires stack > 0
    ensures var o := BLANK.(ty := Some("object")); var n := o.(props := map["x" := STRING]); var j := Obj(map["x" := Null]);
      && Compare(map[], o, map[], n, "body", true, 0, stack) == {}
      && Valid(map[], o, j, matches) && !Declared(map[], o, j) && !Valid(map[], n, j, matches)
  {
    var o := BLANK.(ty := Some("object"));
    var n, j := o.(props := map["x" := STRING]), Obj(map["x" := Null]);
    assert TypeOf(map[], o, stack) == TypeOf(map[], n, stack) == Some({"object"});
    Reported(o, n, "body");
    CleanSplits(map[], o, map[], n, "body", true, 0, stack);
    assert Meaning(map[], o) == o && Meaning(map[], n) == n && Meaning(map[], STRING) == STRING;
    assert "x" in j.fields && !Valid(map[], n.props["x"], j.fields["x"], matches);
  }

  lemma TrueCountsAsOne(o: Schema, n: Schema)
    requires o == BLANK.(enum := Some([Bool(true)])) && n == BLANK.(enum := Some([Num(1.0)]))
    ensures BoundsChange(o, n, "body") == {}
  {
    assert PyEqual(Bool(true), n.enum.value[0]);
    assert PyIn(Bool(true), n.enum.value);
  }

  /** `True in [1]` holds in Python, so a boolean enum that turns into a number enum loses its value unreported. */
  lemma TrueIsOne(stack: nat, matches: (string, string) -> bool)
    requires stack > 0
    ensures var o := BLANK.(enum := Some([Bool(true)])); var n := BLANK.(enum := Some([Num(1.0)]));
      && Compare(map[], o, map[], n, "body", true, 0, stack) == {}
      && Valid(map[], o, Bool(true), matches) && !Valid(map[], n, Bool(true), matches)
  {
    var o, n := BLANK.(enum := Some([Bool(true)])), BLANK.(enum := Some([Num(1.0)]));
    assert TypeOf(map[], o, stack) == TypeOf(map[], n, stack) == Some({"enum"});
    Reported(o, n, "body");
    TrueCountsAsOne(o, n);
    hide BoundsChange, PyEqual;
    LeafClean(o, n, true, stack);
    assert Meaning(map[], o) == o && Meaning(map[], n) == n;
    assert o.enum.value[0] == Bool(true);
  }

  lemma OptionalNowClean(o: Schema, n: Schema, stack: nat)
    requires stack > 0 && n == BLANK.(ty := Some("object"), props := map["x" := STRING]) && o == n.(required := ["x"])
    ensures Compare(map[], o, map[], n, "response 200", false, 0, stack) == {}
  {
    assert TypeOf(map[], o, stack) == TypeOf(map[], n, stack) == Some({"object"});
    assert TypeOf(map[], STRING, stack) == Some({"string"});
    assert TypeChange(map[], o, map[], n, "response 200", false, stack) == {};
    assert Regular(map[], STRING, false, 1, stack);
    Reported(o, n, "response 200");
    hide TypeOf, TypeChange, BoundsChange, Regular;
    SelfCompare(map[], STRING, "response 200" + "." + "x", false, 1, stack);
    CleanSplits(map[], o, map[], n, "response 200", false, 0, stack);
  }

  /** A required property of a response may become optional unreported, as long as it stays declared. */
  lemma RequiredBecomesOptional(stack: nat, matches: (string, string) -> bool)
    requires stack > 0
    ensures var n := BLANK.(ty := Some("object"), props := map["x" := STRING]); var o := n.(required := ["x"]);
      && Compare(map[], o, map[], n, "response 200", false, 0, stack) == {}
      && Valid(map[], n, Obj(map[]), matches) && !Valid(map[], o, Obj(map[]), matches)
  {
    hide Compare;
    var n := BLANK.(ty := Some("object"), props := map["x" := STRING]);
    var o := n.(required := ["x"]);
    OptionalNowClean(o, n, stack);
    assert Meaning(map[], o) == o && Meaning(map[], n) == n;
    hide Meaning;
    assert "x" in o.required;
  }
}
