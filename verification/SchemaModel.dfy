/** JSON values, the schemas of an OpenAPI document, and what it means for a value to meet a schema. */
module SchemaModel {
  import opened Text

  datatype Json = Null | Bool(b: bool) | Num(r: real) | Str(s: string) | Arr(elements: seq<Json>) | Obj(fields: map<string, Json>)

  /** A schema: a reference, or the keywords the comparison reads; `other` when it has any keyword besides these. */
  datatype Schema =
    | Ref(target: string)
    | Node(ty: Option<string>, anyOf: seq<Schema>, oneOf: seq<Schema>, enum: Option<seq<Json>>, bounds: map<string, real>,
           props: map<string, Schema>, required: seq<string>, items: Option<Schema>, pattern: Option<string>, other: bool)

  /** `{}` */
  const BLANK := Node(None, [], [], None, map[], map[], [], None, None, false)

  type Spec = map<string, Schema>

  function Lookup(spec: Spec, target: string): Schema {
    if target in spec then spec[target] else BLANK
  }

  /** Follows at most `hops` references. */
  function Chase(spec: Spec, s: Schema, hops: nat): Schema
    decreases hops
  {
    if s.Ref? && hops > 0 then Chase(spec, Lookup(spec, s.target), hops - 1) else s
  }

  /** The keywords of a resolved schema; a reference still unresolved has none that is read. */
  function View(s: Schema): Schema
    ensures View(s).Node?
  {
    if s.Ref? then BLANK.(other := true) else s
  }

  lemma {:induction false} ChaseMore(spec: Spec, s: Schema, hops: nat, more: nat)
    requires hops <= more && Chase(spec, s, hops).Node?
    ensures Chase(spec, s, more) == Chase(spec, s, hops)
    decreases hops
  {
    if s.Ref? && hops > 0 { ChaseMore(spec, Lookup(spec, s.target), hops - 1, more - 1); }
  }

  // ---------------------------------------------------------------- validation

  predicate IsInteger(r: real) {
    r == r.Floor as real
  }

  predicate HasType(ty: string, j: Json) {
    match j
    case Null => ty == "null"
    case Bool(_) => ty == "boolean"
    case Num(r) => ty == "number" || (ty == "integer" && IsInteger(r))
    case Str(_) => ty == "string"
    case Arr(_) => ty == "array"
    case Obj(_) => ty == "object"
  }

  predicate IsUpper(key: string) {
    key == "maximum" || key == "maxLength" || key == "maxItems" || key == "exclusiveMaximum"
  }

  predicate IsLower(key: string) {
    key == "minimum" || key == "minLength" || key == "minItems" || key == "exclusiveMinimum"
  }

  predicate InBound(key: string, bound: real, j: Json) {
    if key == "maximum" then j.Num? ==> j.r <= bound
    else if key == "exclusiveMaximum" then j.Num? ==> j.r < bound
    else if key == "minimum" then j.Num? ==> j.r >= bound
    else if key == "exclusiveMinimum" then j.Num? ==> j.r > bound
    else if key == "maxLength" then j.Str? ==> |j.s| as real <= bound
    else if key == "minLength" then j.Str? ==> |j.s| as real >= bound
    else if key == "maxItems" then j.Arr? ==> |j.elements| as real <= bound
    else if key == "minItems" then j.Arr? ==> |j.elements| as real >= bound
    else true
  }

  /** What a reference finally stands for: enough hops for every chain that ends. */
  function Meaning(spec: Spec, s: Schema): Schema {
    View(Chase(spec, s, 12 + |spec|))
  }

  /**
   * `j` meets the schema: type, enum, bounds, pattern, required names, properties and items. `anyOf`, `oneOf` and other
   * keywords are given no meaning here. `matches(p, s)` says that the string `s` matches the pattern `p`.
   */
  ghost predicate Valid(spec: Spec, s: Schema, j: Json, matches: (string, string) -> bool)
    decreases j
  {
    var n := Meaning(spec, s);
    && (n.ty.Some? ==> HasType(n.ty.value, j))
    && (n.enum.Some? ==> j in n.enum.value)
    && (forall key :: key in n.bounds ==> InBound(key, n.bounds[key], j))
    && (n.pattern.Some? && j.Str? ==> matches(n.pattern.value, j.s))
    && (j.Obj? ==>
          && (forall name :: name in n.required ==> name in j.fields)
          && (forall name :: name in n.props && name in j.fields ==> Valid(spec, n.props[name], j.fields[name], matches)))
    && (j.Arr? && n.items.Some? ==>
          forall i :: 0 <= i < |j.elements| ==> Valid(spec, n.items.value, j.elements[i], matches))
  }

  /** Every property of `j`, at every level, is one the schema declares. */
  ghost predicate Declared(spec: Spec, s: Schema, j: Json)
    decreases j
  {
    var n := Meaning(spec, s);
    && (j.Obj? ==> forall name :: name in j.fields ==> name in n.props && Declared(spec, n.props[name], j.fields[name]))
    && (j.Arr? && n.items.Some? ==>
          forall i :: 0 <= i < |j.elements| ==> Declared(spec, n.items.value, j.elements[i]))
  }
}
