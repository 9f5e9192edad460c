/** The per-module database roles: the statements the script runs, and the one state they reach from any other. */
module DbRoles {
  import opened Text

  datatype Privilege = SELECT | INSERT | UPDATE | DELETE | OTHER(name: string)
  datatype SchemaPrivilege = USAGE | CREATE

  datatype TableGrant = TableGrant(role: string, schema: string, table: string, privilege: Privilege)
  datatype SchemaGrant = SchemaGrant(role: string, schema: string, privilege: SchemaPrivilege)

  /** What the database contains. */
  datatype Catalog = Catalog(schemas: set<string>, tables: set<(string, string)>, sequences: set<(string, string)>)

  /** What the statements change. Sequence grants reuse the table form; `ownerPath` is the owner's search path in this database. */
  datatype Db = Db(
    roles: set<string>, login: map<string, Option<string>>, paths: map<string, seq<string>>, connects: set<string>,
    publicCreates: bool, schemaGrants: set<SchemaGrant>, tableGrants: set<TableGrant>, sequenceGrants: set<TableGrant>,
    defaults: set<SchemaGrant>, ownerPath: Option<seq<string>>)

  datatype Statement =
    | Login(role: string, password: Option<string>)
    | SearchPath(role: string, path: seq<string>)
    | GrantConnect(role: string)
    | RevokePublicCreate
    | RevokeTables(role: string, schema: string)
    | RevokeSequences(role: string, schema: string)
    | RevokeSchema(role: string, schema: string)
    | GrantUsage(role: string, schema: string)
    | GrantTables(role: string, schema: string)
    | GrantSequences(role: string, schema: string)
    | GrantDefaults(role: string, schema: string)
    | GrantTable(role: string, schema: string, table: string, readOnly: bool)

  predicate ReadWrite(p: Privilege) {
    p == SELECT || p == INSERT || p == UPDATE || p == DELETE
  }

  const CRUD := {SELECT, INSERT, UPDATE, DELETE}
  const SEQUENCE_RIGHTS := {SELECT, OTHER("USAGE")}

  /** A statement fails on a role, schema or table that does not exist. */
  predicate Runs(cat: Catalog, db: Db, s: Statement) {
    match s
    case RevokePublicCreate => "public" in cat.schemas
    case Login(role, _) => role in db.roles
    case SearchPath(role, _) => role in db.roles
    case GrantConnect(role) => role in db.roles
    case GrantTable(role, schema, table, _) => role in db.roles && (schema, table) in cat.tables
    case _ => s.role in db.roles && s.schema in cat.schemas
  }

  function Exec(cat: Catalog, db: Db, s: Statement): Db {
    match s
    case Login(role, password) => db.(login := db.login[role := password])
    case SearchPath(role, path) => db.(paths := db.paths[role := path])
    case GrantConnect(role) => db.(connects := db.connects + {role})
    case RevokePublicCreate => db.(publicCreates := false)
    case RevokeTables(role, schema) => db.(tableGrants := set g | g in db.tableGrants && !(g.role == role && g.schema == schema))
    case RevokeSequences(role, schema) => db.(sequenceGrants := set g | g in db.sequenceGrants && !(g.role == role && g.schema == schema))
    case RevokeSchema(role, schema) => db.(schemaGrants := set g | g in db.schemaGrants && !(g.role == role && g.schema == schema))
    case GrantUsage(role, schema) => db.(schemaGrants := db.schemaGrants + {SchemaGrant(role, schema, USAGE)})
    case GrantTables(role, schema) =>
      db.(tableGrants := db.tableGrants + set t, p | t in cat.tables && t.0 == schema && p in CRUD :: TableGrant(role, t.0, t.1, p))
    case GrantSequences(role, schema) =>
      db.(sequenceGrants := db.sequenceGrants + set t, p | t in cat.sequences && t.0 == schema && p in SEQUENCE_RIGHTS :: TableGrant(role, t.0, t.1, p))
    case GrantDefaults(role, schema) => db.(defaults := db.defaults + {SchemaGrant(role, schema, USAGE)})
    case GrantTable(role, schema, table, readOnly) =>
      db.(tableGrants := db.tableGrants + set p | p in CRUD && (readOnly ==> p == SELECT) :: TableGrant(role, schema, table, p))
  }

  /** A list of statements; `None` when one fails. */
  function ExecAll(cat: Catalog, db: Db, ss: seq<Statement>): Option<Db>
    decreases |ss|
  {
    if ss == [] then Some(db)
    else if Runs(cat, db, ss[0]) then ExecAll(cat, Exec(cat, db, ss[0]), ss[1..]) else None
  }

  // ---------------------------------------------------------------- the statements of one module

  datatype Spec = Spec(schema: Option<string>, shared: seq<string>, read: seq<string>)

  function AfterSlash(s: string): string {
    if exists i :: 0 <= i < |s| && s[i] == '/' then AfterSlash(s[1..]) else s
  }

  function Underscored(s: string): string {
    if s == "" then "" else [if s[0] == '-' then '_' else s[0]] + Underscored(s[1..])
  }

  function RoleName(name: string): string {
    "smo_" + Underscored(AfterSlash(name))
  }

  /** `q.split(".", 1)`; `None` when there is no dot. */
  function SplitDot(q: string): Option<(string, string)> {
    var i := Find(q, ".", 0);
    if i < 0 then None else Some((q[..i], q[i + 1..]))
  }

  /** The schema when there is one and its name is not empty. */
  function Own(spec: Spec): seq<string> {
    if spec.schema.Some? && spec.schema.value != "" then [spec.schema.value] else []
  }

  function Revokes(role: string, own: Option<string>, schemas: seq<string>): seq<Statement> {
    if schemas == [] then []
    else [RevokeTables(role, schemas[0]), RevokeSequences(role, schemas[0])]
         + (if Some(schemas[0]) != own then [RevokeSchema(role, schemas[0])] else [])
         + Revokes(role, own, schemas[1..])
  }

  function OwnGrants(role: string, own: seq<string>): seq<Statement> {
    if own == [] then []
    else [GrantUsage(role, own[0]), GrantTables(role, own[0]), GrantSequences(role, own[0]), GrantDefaults(role, own[0])]
  }

  function SharedGrants(role: string, shared: seq<string>): seq<Statement> {
    if shared == [] then [] else [GrantTable(role, "public", shared[0], false)] + SharedGrants(role, shared[1..])
  }

  /** `None` when an entry has no dot, which raises. */
  function ReadGrants(role: string, read: seq<string>): Option<seq<Statement>> {
    if read == [] then Some([])
    else
      var q, rest := SplitDot(read[0]), ReadGrants(role, read[1..]);
      if q.None? || rest.None? then None
      else Some([GrantUsage(role, q.value.0), GrantTable(role, q.value.0, q.value.1, true)] + rest.value)
  }

  function Preamble(role: string, own: seq<string>, password: Option<string>): seq<Statement> {
    [Login(role, password), SearchPath(role, own + ["public"]), GrantConnect(role), RevokePublicCreate]
  }

  /** `statements` */
  function Statements(role: string, spec: Spec, password: Option<string>, schemas: seq<string>): Option<seq<Statement>> {
    var given := ReadGrants(role, spec.read);
    if given.None? then None
    else Some(Preamble(role, Own(spec), password) + Revokes(role, spec.schema, schemas) + Grants(role, spec))
  }

  function Grants(role: string, spec: Spec): seq<Statement>
    requires ReadGrants(role, spec.read).Some?
  {
    [GrantUsage(role, "public")] + OwnGrants(role, Own(spec)) + [GrantTable(role, "public", "alembic_version", true)]
    + SharedGrants(role, spec.shared) + ReadGrants(role, spec.read).value
  }

  // ---------------------------------------------------------------- what one privilege goes through

  /** A privilege on a table, on a schema, on a sequence, or on what is created in a schema later. */
  datatype Right = OnTable(t: TableGrant) | OnSchema(s: SchemaGrant) | OnSequence(q: TableGrant) | OnDefault(d: SchemaGrant) {
    function Role(): string {
      match this
      case OnTable(g) => g.role
      case OnSchema(g) => g.role
      case OnSequence(g) => g.role
      case OnDefault(g) => g.role
    }

    function Schema(): string {
      match this
      case OnTable(g) => g.schema
      case OnSchema(g) => g.schema
      case OnSequence(g) => g.schema
      case OnDefault(g) => g.schema
    }
  }

  predicate Has(db: Db, r: Right) {
    match r
    case OnTable(g) => g in db.tableGrants
    case OnSchema(g) => g in db.schemaGrants
    case OnSequence(g) => g in db.sequenceGrants
    case OnDefault(g) => g in db.defaults
  }

  /** The statement gives the privilege. */
  predicate Gives(cat: Catalog, s: Statement, r: Right) {
    match r
    case OnTable(g) =>
      || (s.GrantTables? && s.role == g.role && s.schema == g.schema && (g.schema, g.table) in cat.tables && ReadWrite(g.privilege))
      || (s.GrantTable? && s.role == g.role && s.schema == g.schema && s.table == g.table
          && (if s.readOnly then g.privilege == SELECT else ReadWrite(g.privilege)))
    case OnSchema(g) => s.GrantUsage? && s.role == g.role && s.schema == g.schema && g.privilege == USAGE
    case OnSequence(g) =>
      s.GrantSequences? && s.role == g.role && s.schema == g.schema && (g.schema, g.table) in cat.sequences && g.privilege in SEQUENCE_RIGHTS
    case OnDefault(g) => s.GrantDefaults? && s.role == g.role && s.schema == g.schema && g.privilege == USAGE
  }

  predicate Takes(s: Statement, r: Right) {
    match r
    case OnTable(g) => s.RevokeTables? && s.role == g.role && s.schema == g.schema
    case OnSchema(g) => s.RevokeSchema? && s.role == g.role && s.schema == g.schema
    case OnSequence(g) => s.RevokeSequences? && s.role == g.role && s.schema == g.schema
    case OnDefault(_) => false
  }

  /** Whether the privilege is held after the statements, given whether it was before. */
  predicate Holds(cat: Catalog, ss: seq<Statement>, r: Right, before: bool)
    decreases |ss|
  {
    if ss == [] then before
    else Holds(cat, ss[1..], r, if Takes(ss[0], r) then false else before || Gives(cat, ss[0], r))
  }

  lemma ExecHas(cat: Catalog, db: Db, s: Statement, r: Right)
    ensures Has(Exec(cat, db, s), r) <==> (if Takes(s, r) then false else Has(db, r) || Gives(cat, s, r))
  {
    if s.GrantTables? && Gives(cat, s, r) { assert (r.t.schema, r.t.table) in cat.tables && r.t.privilege in CRUD; }
    if s.GrantSequences? && Gives(cat, s, r) { assert (r.q.schema, r.q.table) in cat.sequences && r.q.privilege in SEQUENCE_RIGHTS; }
  }

  lemma {:induction false} ExecAllHas(cat: Catalog, db: Db, ss: seq<Statement>, r: Right)
    requires ExecAll(cat, db, ss).Some?
    ensures Has(ExecAll(cat, db, ss).value, r) <==> Holds(cat, ss, r, Has(db, r))
    decreases |ss|
  {
    hide Exec, Gives, Takes, Has, Runs;
    if ss != [] {
      ExecHas(cat, db, ss[0], r);
      ExecAllHas(cat, Exec(cat, db, ss[0]), ss[1..], r);
    }
  }

  lemma {:induction false} HoldsPlus(cat: Catalog, a: seq<Statement>, b: seq<Statement>, r: Right, before: bool)
    ensures Holds(cat, a + b, r, before) == Holds(cat, b, r, Holds(cat, a, r, before))
    decreases |a|
  {
    hide Takes, Gives;
    if a == [] {
      assert a + b == b;
    } else {
      assert (a + b)[1..] == a[1..] + b;
      HoldsPlus(cat, a[1..], b, r, if Takes(a[0], r) then false else before || Gives(cat, a[0], r));
    }
  }

  predicate AnyGives(cat: Catalog, ss: seq<Statement>, r: Right) {
    exists s :: s in ss && Gives(cat, s, r)
  }

  lemma AnyPlus(cat: Catalog, a: seq<Statement>, b: seq<Statement>, r: Right)
    ensures AnyGives(cat, a + b, r) <==> AnyGives(cat, a, r) || AnyGives(cat, b, r)
  {
    hide Gives;
    assert forall s :: s in a + b <==> s in a || s in b;
  }

  /** Statements that take nothing from the privilege: it is held if it was or if one gives it. */
  lemma {:induction false} OnlyGrants(cat: Catalog, ss: seq<Statement>, r: Right, before: bool)
    requires forall s :: s in ss ==> !Takes(s, r)
    ensures Holds(cat, ss, r, before) <==> (before || AnyGives(cat, ss, r))
    decreases |ss|
  {
    hide Takes, Gives;
    if ss != [] {
      assert ss[0] in ss && ss == [ss[0]] + ss[1..];
      AnyPlus(cat, [ss[0]], ss[1..], r);
      assert AnyGives(cat, [ss[0]], r) <==> Gives(cat, ss[0], r) by { assert ss[0] in [ss[0]]; }
      OnlyGrants(cat, ss[1..], r, before || Gives(cat, ss[0], r));
    }
  }

  /**
   * What the revokes of a role take: all its table and sequence privileges in the listed schemas, and those on the schemas
   * themselves except its own; default privileges stay.
   */
  predicate Cleared(role: string, own: Option<string>, schemas: seq<string>, r: Right) {
    r.Role() == role && r.Schema() in schemas && (r.OnSchema? ==> Some(r.Schema()) != own) && !r.OnDefault?
  }

  lemma {:induction false} RevokesTake(cat: Catalog, role: string, own: Option<string>, schemas: seq<string>, r: Right, before: bool)
    ensures Holds(cat, Revokes(role, own, schemas), r, before) <==> (before && !Cleared(role, own, schemas, r))
    decreases |schemas|
  {
    if schemas != [] {
      var s, rest := schemas[0], Revokes(role, own, schemas[1..]);
      var last := if Some(s) != own then [RevokeSchema(role, s)] else [];
      HoldsPlus(cat, [RevokeTables(role, s), RevokeSequences(role, s)] + last, rest, r, before);
      FirstRevokes(cat, role, own, s, r, before);
      RevokesTake(cat, role, own, schemas[1..], r, before && !Cleared(role, own, [s], r));
    }
  }

  lemma FirstRevokes(cat: Catalog, role: string, own: Option<string>, s: string, r: Right, before: bool)
    ensures Holds(cat, [RevokeTables(role, s), RevokeSequences(role, s)] + (if Some(s) != own then [RevokeSchema(role, s)] else []), r, before)
      <==> (before && !Cleared(role, own, [s], r))
  {
    var a, b, c := RevokeTables(role, s), RevokeSequences(role, s), RevokeSchema(role, s);
    assert [a, b, c][1..] == [b, c] && [b, c][1..] == [c] && [c][1..] == [] && [a, b][1..] == [b] && [b][1..] == [];
    var h := before && !Takes(a, r);
    var i := h && !Takes(b, r);
    assert Holds(cat, [c], r, i) == Holds(cat, [], r, i && !Takes(c, r));
    assert Holds(cat, [b, c], r, h) == Holds(cat, [c], r, i) && Holds(cat, [b], r, h) == i;
    assert Holds(cat, [a, b, c], r, before) == Holds(cat, [b, c], r, h) && Holds(cat, [a, b], r, before) == Holds(cat, [b], r, h);
    var ss := [a, b] + (if Some(s) != own then [c] else []);
    assert ss == if Some(s) != own then [a, b, c] else [a, b];
  }

  // ---------------------------------------------------------------- what a module has a right to

  /** The module's own tables and sequences, now and later, `alembic_version`, and the use of its own schema and of `public`. */
  predicate Basic(cat: Catalog, spec: Spec, r: Right) {
    match r
    case OnTable(g) =>
      || (g.schema in Own(spec) && (g.schema, g.table) in cat.tables && ReadWrite(g.privilege))
      || (g.schema == "public" && g.table == "alembic_version" && g.privilege == SELECT)
    case OnSchema(g) => g.privilege == USAGE && (g.schema in Own(spec) || g.schema == "public")
    case OnSequence(g) => g.schema in Own(spec) && (g.schema, g.table) in cat.sequences && g.privilege in SEQUENCE_RIGHTS
    case OnDefault(g) => g.schema in Own(spec) && g.privilege == USAGE
  }

  /** Reading the table `q` names, and the use of its schema. */
  predicate ReadFits(q: string, r: Right) {
    SplitDot(q).Some? &&
    match r
    case OnTable(g) => SplitDot(q).value == (g.schema, g.table) && g.privilege == SELECT
    case OnSchema(g) => SplitDot(q).value.0 == g.schema && g.privilege == USAGE
    case _ => false
  }

  /** Everything the module's role is for: the basics, reading and writing the shared tables, and reading the ones it lists. */
  predicate Wanted(cat: Catalog, spec: Spec, r: Right) {
    || Basic(cat, spec, r)
    || (r.OnTable? && r.t.schema == "public" && r.t.table in spec.shared && ReadWrite(r.t.privilege))
    || exists q :: q in spec.read && ReadFits(q, r)
  }

  lemma {:induction false} SharedGive(cat: Catalog, role: string, shared: seq<string>, r: Right)
    ensures AnyGives(cat, SharedGrants(role, shared), r)
      <==> (r.OnTable? && r.t.role == role && r.t.schema == "public" && r.t.table in shared && ReadWrite(r.t.privilege))
    ensures forall s :: s in SharedGrants(role, shared) ==> !Takes(s, r)
    decreases |shared|
  {
    if shared != [] {
      var first, rest := GrantTable(role, "public", shared[0], false), SharedGrants(role, shared[1..]);
      SharedGive(cat, role, shared[1..], r);
      assert SharedGrants(role, shared) == [first] + rest;
      assert first in [first] + rest;
    }
  }

  lemma {:induction false} ReadGive(cat: Catalog, role: string, read: seq<string>, r: Right)
    requires ReadGrants(role, read).Some?
    ensures AnyGives(cat, ReadGrants(role, read).value, r)
      <==> (r.Role() == role && exists q :: q in read && ReadFits(q, r))
    ensures forall s :: s in ReadGrants(role, read).value ==> !Takes(s, r)
    decreases |read|
  {
    hide SplitDot;
    if read != [] {
      var q, rest := SplitDot(read[0]).value, ReadGrants(role, read[1..]).value;
      ReadGive(cat, role, read[1..], r);
      var first := [GrantUsage(role, q.0), GrantTable(role, q.0, q.1, true)];
      assert ReadGrants(role, read).value == first + rest;
      assert first[0] in first + rest && first[1] in first + rest && read[0] in read;
      assert forall x :: x in read <==> x == read[0] || x in read[1..];
    }
  }

  /** The grants at the end of a module's statements give exactly what it has a right to. */
  lemma GrantsGive(cat: Catalog, role: string, spec: Spec, r: Right, before: bool)
    requires ReadGrants(role, spec.read).Some?
    ensures Holds(cat, Grants(role, spec), r, before) <==> (before || (r.Role() == role && Wanted(cat, spec, r)))
  {
    var head := [GrantUsage(role, "public")] + OwnGrants(role, Own(spec)) + [GrantTable(role, "public", "alembic_version", true)];
    var shared, given := SharedGrants(role, spec.shared), ReadGrants(role, spec.read).value;
    SharedGive(cat, role, spec.shared, r);
    ReadGive(cat, role, spec.read, r);
    HeadGives(cat, role, spec, r);
    hide Gives, Takes, Own, OwnGrants, SplitDot, ReadWrite, Basic, ReadFits, AnyGives;
    assert Grants(role, spec) == head + shared + given;
    assert forall s :: s in head + shared + given <==> s in head || s in shared || s in given;
    AnyPlus(cat, head + shared, given, r);
    AnyPlus(cat, head, shared, r);
    OnlyGrants(cat, head + shared + given, r, before);
  }

  lemma OneGives(cat: Catalog, s: Statement, r: Right)
    ensures AnyGives(cat, [s], r) <==> Gives(cat, s, r)
  {
    assert s in [s];
  }

  /** The privileges the own schema's grants are about, whichever the schema. */
  predicate OwnRight(cat: Catalog, r: Right) {
    match r
    case OnTable(g) => (g.schema, g.table) in cat.tables && ReadWrite(g.privilege)
    case OnSchema(g) => g.privilege == USAGE
    case OnSequence(g) => (g.schema, g.table) in cat.sequences && g.privilege in SEQUENCE_RIGHTS
    case OnDefault(g) => g.privilege == USAGE
  }

  lemma OwnGives(cat: Catalog, role: string, own: seq<string>, r: Right)
    requires |own| <= 1
    ensures forall s :: s in OwnGrants(role, own) ==> !Takes(s, r)
    ensures AnyGives(cat, OwnGrants(role, own), r) <==>
      (r.Role() == role && r.Schema() in own && OwnRight(cat, r))
  {
    if own != [] {
      var x := own[0];
      var u, t, q, d := GrantUsage(role, x), GrantTables(role, x), GrantSequences(role, x), GrantDefaults(role, x);
      assert OwnGrants(role, own) == [u] + [t] + [q] + [d];
      hide Gives;
      AnyPlus(cat, [u] + [t] + [q], [d], r);
      AnyPlus(cat, [u] + [t], [q], r);
      AnyPlus(cat, [u], [t], r);
      OneGives(cat, u, r);
      OneGives(cat, t, r);
      OneGives(cat, q, r);
      OneGives(cat, d, r);
      OwnStatements(cat, role, x, r);
    }
  }

  lemma OwnStatements(cat: Catalog, role: string, x: string, r: Right)
    ensures (r.Role() == role && r.Schema() == x && OwnRight(cat, r)) <==>
      || Gives(cat, GrantUsage(role, x), r) || Gives(cat, GrantTables(role, x), r)
      || Gives(cat, GrantSequences(role, x), r) || Gives(cat, GrantDefaults(role, x), r)
  {
  }

  lemma HeadGives(cat: Catalog, role: string, spec: Spec, r: Right)
    ensures var head := [GrantUsage(role, "public")] + OwnGrants(role, Own(spec)) + [GrantTable(role, "public", "alembic_version", true)];
      && (forall s :: s in head ==> !Takes(s, r))
      && (AnyGives(cat, head, r) <==> r.Role() == role && Basic(cat, spec, r))
  {
    var own := OwnGrants(role, Own(spec));
    var usage, version := GrantUsage(role, "public"), GrantTable(role, "public", "alembic_version", true);
    OwnGives(cat, role, Own(spec), r);
    OneGives(cat, usage, r);
    OneGives(cat, version, r);
    AnyPlus(cat, [usage] + own, [version], r);
    AnyPlus(cat, [usage], own, r);
    hide AnyGives, OwnGrants, Own;
  }

  /** The statements of one module, run from any state: its role ends with what is left uncleared and what it wants, others keep theirs. */
  lemma ModuleExact(cat: Catalog, role: string, spec: Spec, password: Option<string>, schemas: seq<string>, r: Right, before: bool)
    requires Statements(role, spec, password, schemas).Some?
    ensures Holds(cat, Statements(role, spec, password, schemas).value, r, before)
      <==> (before && !Cleared(role, spec.schema, schemas, r)) || (r.Role() == role && Wanted(cat, spec, r))
  {
    var a, b, c := Preamble(role, Own(spec), password), Revokes(role, spec.schema, schemas), Grants(role, spec);
    PreambleIsNeutral(cat, role, Own(spec), password, r, before);
    hide Holds, Gives, Takes, Wanted, Own, Cleared, Grants, Revokes, Preamble;
    HoldsPlus(cat, a + b, c, r, before);
    HoldsPlus(cat, a, b, r, before);
    RevokesTake(cat, role, spec.schema, schemas, r, before);
    GrantsGive(cat, role, spec, r, before && !Cleared(role, spec.schema, schemas, r));
  }

  lemma PreambleIsNeutral(cat: Catalog, role: string, own: seq<string>, password: Option<string>, r: Right, before: bool)
    ensures Holds(cat, Preamble(role, own, password), r, before) == before
  {
    OnlyGrants(cat, Preamble(role, own, password), r, before);
  }

  // ---------------------------------------------------------------- the whole run

  datatype Module = Module(name: string, spec: Spec) {
    function Role(): string { RoleName(name) }
  }

  function BeforeDot(q: string): string {
    var i := Find(q, ".", 0);
    if i < 0 then q else q[..i]
  }

  /** The schemas exist that the module needs. */
  predicate Migrated(spec: Spec, schemas: seq<string>) {
    (forall x :: x in Own(spec) ==> x in schemas) && forall q :: q in spec.read && BeforeDot(q) != "" ==> BeforeDot(q) in schemas
  }

  /** What a run works with: the schemas it lists, and the stripped contents of the password files that exist. */
  datatype Setting = Setting(cat: Catalog, schemas: seq<string>, passwords: map<string, string>)

  /** The module is not skipped. */
  predicate Taken(x: Setting, m: Module) {
    m.name in x.passwords && x.passwords[m.name] != "" && Migrated(m.spec, x.schemas)
  }

  function Step(x: Setting, db: Db, m: Module): Option<Db> {
    if !Taken(x, m) then Some(db)
    else
      var ss := Statements(m.Role(), m.spec, Some(x.passwords[m.name]), x.schemas);
      if ss.None? then None else ExecAll(x.cat, db.(roles := db.roles + {m.Role()}), ss.value)
  }

  function Reconcile(x: Setting, db: Db, ms: seq<Module>): Option<Db>
    decreases |ms|
  {
    if ms == [] then Some(db)
    else
      var db1 := Step(x, db, ms[0]);
      if db1.None? then None else Reconcile(x, db1.value, ms[1..])
  }

  /** The schemas of the manifest that exist. */
  function OwnSchemas(x: Setting, ms: seq<Module>): set<string> {
    set m | m in ms && m.spec.schema.Some? && m.spec.schema.value in x.schemas :: m.spec.schema.value
  }

  function Among(schemas: seq<string>, wanted: set<string>): seq<string> {
    if schemas == [] then [] else (if schemas[0] in wanted then [schemas[0]] else []) + Among(schemas[1..], wanted)
  }

  /** The owner's search path, set first when any module has a schema; listing the schemas in order is sorting the module's own. */
  function WithOwnerPath(x: Setting, db: Db, ms: seq<Module>): Db {
    var own := Among(x.schemas, OwnSchemas(x, ms));
    if own == [] then db else db.(ownerPath := Some(own + ["public"]))
  }

  /** The whole run. */
  function ReconcileAll(x: Setting, db: Db, ms: seq<Module>): Option<Db> {
    Reconcile(x, WithOwnerPath(x, db, ms), ms)
  }

  predicate Before(a: string, b: string)
    decreases |a|
  {
    b != "" && (a == "" || a[0] < b[0] || (a[0] == b[0] && Before(a[1..], b[1..])))
  }

  predicate Sorted(names: seq<string>) {
    forall i, j :: 0 <= i < j < |names| ==> Before(names[i], names[j])
  }

  /** From the sorted list of schemas, the owner's path gets precisely the modules' schemas, sorted. */
  lemma {:induction false} OwnerPathIsSorted(schemas: seq<string>, wanted: set<string>)
    requires Sorted(schemas)
    ensures Sorted(Among(schemas, wanted))
    ensures forall s :: s in Among(schemas, wanted) <==> s in schemas && s in wanted
    decreases |schemas|
  {
    hide Before;
    if schemas != [] {
      var rest := Among(schemas[1..], wanted);
      assert forall j :: 0 <= j < |schemas[1..]| ==> schemas[1..][j] == schemas[j + 1];
      OwnerPathIsSorted(schemas[1..], wanted);
      forall s | s in rest ensures Before(schemas[0], s) {
        var j :| 0 <= j < |schemas[1..]| && schemas[1..][j] == s;
        assert schemas[j + 1] == s;
      }
      forall i | 0 <= i < |rest| ensures Before(schemas[0], rest[i]) { assert rest[i] in rest; }
    }
  }

  lemma StepExact(x: Setting, db: Db, m: Module, r: Right)
    requires Step(x, db, m).Some?
    ensures Has(Step(x, db, m).value, r) <==>
      (if Taken(x, m) then (Has(db, r) && !Cleared(m.Role(), m.spec.schema, x.schemas, r)) || (r.Role() == m.Role() && Wanted(x.cat, m.spec, r))
       else Has(db, r))
  {
    hide Statements, Holds, Cleared, Wanted;
    if Taken(x, m) {
      var db0 := db.(roles := db.roles + {m.Role()});
      var ss := Statements(m.Role(), m.spec, Some(x.passwords[m.name]), x.schemas).value;
      assert Has(db0, r) == Has(db, r);
      ExecAllHas(x.cat, db0, ss, r);
      ModuleExact(x.cat, m.Role(), m.spec, Some(x.passwords[m.name]), x.schemas, r, Has(db, r));
    }
  }

  /** The last module taken that has the role. */
  function Last(x: Setting, ms: seq<Module>, role: string): Option<Module>
    decreases |ms|
  {
    if ms == [] then None
    else
      var later := Last(x, ms[1..], role);
      if later.Some? then later else if Taken(x, ms[0]) && ms[0].Role() == role then Some(ms[0]) else None
  }

  /** What one step makes of a privilege. */
  predicate StepHolds(x: Setting, m: Module, r: Right, before: bool) {
    if Taken(x, m) then (before && !Cleared(m.Role(), m.spec.schema, x.schemas, r)) || (r.Role() == m.Role() && Wanted(x.cat, m.spec, r))
    else before
  }

  /** What a whole run makes of it. */
  predicate RunHolds(x: Setting, ms: seq<Module>, r: Right, before: bool)
    decreases |ms|
  {
    if ms == [] then before else RunHolds(x, ms[1..], r, StepHolds(x, ms[0], r, before))
  }

  lemma {:induction false} RunHas(x: Setting, db: Db, ms: seq<Module>, r: Right)
    requires Reconcile(x, db, ms).Some?
    ensures Has(Reconcile(x, db, ms).value, r) <==> RunHolds(x, ms, r, Has(db, r))
    decreases |ms|
  {
    hide StepHolds, Step, Has;
    if ms != [] {
      StepIs(x, db, ms[0], r);
      RunHas(x, Step(x, db, ms[0]).value, ms[1..], r);
    }
  }

  lemma StepIs(x: Setting, db: Db, m: Module, r: Right)
    requires Step(x, db, m).Some?
    ensures Has(Step(x, db, m).value, r) <==> StepHolds(x, m, r, Has(db, r))
  {
    hide Taken, Cleared, Wanted, RoleName;
    StepExact(x, db, m, r);
  }

  /** Holding more before never means holding less after. */
  lemma {:induction false} RunIsMonotone(x: Setting, ms: seq<Module>, r: Right)
    ensures RunHolds(x, ms, r, false) ==> RunHolds(x, ms, r, true)
    decreases |ms|
  {
    hide Taken, Cleared, Wanted, RoleName;
    if ms != [] { RunIsMonotone(x, ms[1..], r); }
  }

  /**
   * After a committed run, a role's table and sequence privileges in the listed schemas are exactly those of the last module
   * that has the role, whatever they were before; a role of no module keeps what it had.
   */
  lemma {:induction false} TablesExact(x: Setting, db: Db, ms: seq<Module>, r: Right)
    requires Reconcile(x, db, ms).Some? && r.Schema() in x.schemas && (r.OnTable? || r.OnSequence?)
    ensures var m := Last(x, ms, r.Role());
      Has(Reconcile(x, db, ms).value, r) <==> if m.Some? then Wanted(x.cat, m.value.spec, r) else Has(db, r)
    decreases |ms|
  {
    hide Wanted, Taken, RoleName;
    if ms != [] {
      StepExact(x, db, ms[0], r);
      TablesExact(x, Step(x, db, ms[0]).value, ms[1..], r);
    }
  }

  /** Outside the listed schemas, and of default privileges anywhere, nothing is taken, and only what some module wants is given. */
  lemma {:induction false} UnlistedExact(x: Setting, db: Db, ms: seq<Module>, r: Right)
    requires Reconcile(x, db, ms).Some? && (r.Schema() !in x.schemas || r.OnDefault?)
    ensures Has(Reconcile(x, db, ms).value, r) <==> (Has(db, r) || AnyAsks(x, ms, r))
    decreases |ms|
  {
    hide Wanted, Taken, RoleName, Has;
    if ms != [] {
      StepExact(x, db, ms[0], r);
      UnlistedExact(x, Step(x, db, ms[0]).value, ms[1..], r);
      AnyAsksSplits(x, ms, r);
    }
  }

  predicate AnyAsks(x: Setting, ms: seq<Module>, r: Right) {
    exists m :: m in ms && Asks(x, m, r)
  }

  lemma AnyAsksSplits(x: Setting, ms: seq<Module>, r: Right)
    requires ms != []
    ensures AnyAsks(x, ms, r) <==> Asks(x, ms[0], r) || AnyAsks(x, ms[1..], r)
  {
    hide Asks;
    assert ms[0] in ms;
    assert forall m :: m in ms <==> m == ms[0] || m in ms[1..];
  }

  predicate Asks(x: Setting, m: Module, r: Right) {
    Taken(x, m) && m.Role() == r.Role() && Wanted(x.cat, m.spec, r)
  }

  /** Modules with the same role are the same module. */
  predicate OwnRoles(x: Setting, ms: seq<Module>) {
    forall m, n :: m in ms && n in ms && Taken(x, m) && Taken(x, n) && m.Role() == n.Role() ==> m == n
  }

  lemma {:induction false} LastIs(x: Setting, ms: seq<Module>, role: string)
    ensures Last(x, ms, role).Some? ==> var m := Last(x, ms, role).value; m in ms && Taken(x, m) && m.Role() == role
    ensures Last(x, ms, role).None? ==> forall m :: m in ms && Taken(x, m) ==> m.Role() != role
    decreases |ms|
  {
    hide Taken, RoleName;
    if ms != [] {
      LastIs(x, ms[1..], role);
      assert forall m :: m in ms <==> m == ms[0] || m in ms[1..];
    }
  }

  /** With a role of its own, a module alone decides, whatever else runs and however often: every kind of privilege. */
  lemma {:induction false} RightsExact(x: Setting, ms: seq<Module>, r: Right, before: bool)
    requires OwnRoles(x, ms)
    ensures var m := Last(x, ms, r.Role());
      RunHolds(x, ms, r, before) <==> if m.Some? then StepHolds(x, m.value, r, before) else before
    decreases |ms|
  {
    hide Wanted, Taken, RoleName;
    if ms != [] {
      var m := ms[0];
      assert forall n :: n in ms[1..] ==> n in ms;
      RightsExact(x, ms[1..], r, StepHolds(x, m, r, before));
      LastIs(x, ms[1..], r.Role());
      assert m in ms;
    }
  }

  /**
   * Privileges on the listed schemas themselves: with a role of its own, a module ends with the use of the schemas it needs, and
   * keeps on its own schema whatever it had there before; a role of no module keeps all.
   */
  lemma SchemasExact(x: Setting, db: Db, ms: seq<Module>, g: SchemaGrant)
    requires Reconcile(x, db, ms).Some? && g.schema in x.schemas && OwnRoles(x, ms)
    ensures var m := Last(x, ms, g.role); var after := Reconcile(x, db, ms).value;
      g in after.schemaGrants <==>
        if m.Some? then Wanted(x.cat, m.value.spec, OnSchema(g)) || (m.value.spec.schema == Some(g.schema) && g in db.schemaGrants)
        else g in db.schemaGrants
  {
    hide Wanted, Taken, RoleName, Reconcile, Last, RunHolds;
    RunHas(x, db, ms, OnSchema(g));
    RightsExact(x, ms, OnSchema(g), g in db.schemaGrants);
    LastIs(x, ms, g.role);
  }

  // ---------------------------------------------------------------- when a run commits

  /** What a statement names exists in the database. */
  predicate Present(cat: Catalog, s: Statement) {
    match s
    case RevokePublicCreate => "public" in cat.schemas
    case Login(_, _) => true
    case SearchPath(_, _) => true
    case GrantConnect(_) => true
    case GrantTable(_, schema, table, _) => (schema, table) in cat.tables
    case _ => s.schema in cat.schemas
  }

  predicate About(s: Statement, role: string) {
    s.RevokePublicCreate? || s.role == role
  }

  lemma {:induction false} RunsAll(cat: Catalog, db: Db, ss: seq<Statement>, role: string)
    requires role in db.roles && forall s :: s in ss ==> About(s, role)
    ensures ExecAll(cat, db, ss).Some? <==> forall s :: s in ss ==> Present(cat, s)
    ensures ExecAll(cat, db, ss).Some? ==> ExecAll(cat, db, ss).value.roles == db.roles
    decreases |ss|
  {
    if ss != [] {
      assert ss[0] in ss && forall s :: s in ss <==> s == ss[0] || s in ss[1..];
      assert Runs(cat, db, ss[0]) <==> Present(cat, ss[0]);
      RunsAll(cat, Exec(cat, db, ss[0]), ss[1..], role);
    }
  }

  lemma {:induction false} RevokesAbout(role: string, own: Option<string>, schemas: seq<string>)
    ensures forall s :: s in Revokes(role, own, schemas) ==> About(s, role)
  {
    if schemas != [] { RevokesAbout(role, own, schemas[1..]); }
  }

  lemma {:induction false} SharedAbout(role: string, shared: seq<string>)
    ensures forall s :: s in SharedGrants(role, shared) ==> About(s, role)
  {
    if shared != [] { SharedAbout(role, shared[1..]); }
  }

  lemma {:induction false} ReadAbout(role: string, read: seq<string>)
    requires ReadGrants(role, read).Some?
    ensures forall s :: s in ReadGrants(role, read).value ==> About(s, role)
  {
    if read != [] { ReadAbout(role, read[1..]); }
  }

  lemma StatementsAbout(role: string, spec: Spec, password: Option<string>, schemas: seq<string>)
    requires Statements(role, spec, password, schemas).Some?
    ensures forall s :: s in Statements(role, spec, password, schemas).value ==> About(s, role)
  {
    hide SplitDot;
    RevokesAbout(role, spec.schema, schemas);
    SharedAbout(role, spec.shared);
    ReadAbout(role, spec.read);
  }

  /** A module's statements can be written, and all they name exists. */
  predicate Commits(x: Setting, m: Module) {
    Taken(x, m) ==>
      var ss := Statements(m.Role(), m.spec, Some(x.passwords[m.name]), x.schemas);
      ss.Some? && forall s :: s in ss.value ==> Present(x.cat, s)
  }

  lemma StepCommits(x: Setting, db: Db, m: Module)
    ensures Step(x, db, m).Some? <==> Commits(x, m)
    ensures Step(x, db, m).Some? ==> Step(x, db, m).value.roles == db.roles + (if Taken(x, m) then {m.Role()} else {})
  {
    hide Statements, Present, About, RoleName, ExecAll, Migrated;
    if Taken(x, m) {
      var ss := Statements(m.Role(), m.spec, Some(x.passwords[m.name]), x.schemas);
      if ss.Some? {
        StatementsAbout(m.Role(), m.spec, Some(x.passwords[m.name]), x.schemas);
        RunsAll(x.cat, db.(roles := db.roles + {m.Role()}), ss.value, m.Role());
      }
    }
  }

  /** Whether a run commits does not depend on the state it starts from. */
  lemma {:induction false} CommitsExactly(x: Setting, db: Db, ms: seq<Module>)
    ensures Reconcile(x, db, ms).Some? <==> forall m :: m in ms ==> Commits(x, m)
    decreases |ms|
  {
    hide Step, Commits;
    if ms != [] {
      assert ms[0] in ms && forall m :: m in ms <==> m == ms[0] || m in ms[1..];
      StepCommits(x, db, ms[0]);
      if Commits(x, ms[0]) { CommitsExactly(x, Step(x, db, ms[0]).value, ms[1..]); }
    }
  }

  // ---------------------------------------------------------------- logins, search paths and connections

  /** What a role can do before any grant: log in with a password, find tables along a path, connect. */
  datatype Account = Account(created: bool, login: Option<Option<string>>, path: Option<seq<string>>, connects: bool)

  function AccountOf(db: Db, role: string): Account {
    Account(role in db.roles, if role in db.login then Some(db.login[role]) else None,
            if role in db.paths then Some(db.paths[role]) else None, role in db.connects)
  }

  predicate Settles(s: Statement) {
    s.Login? || s.SearchPath? || s.GrantConnect?
  }

  lemma {:induction false} OthersSettleNothing(cat: Catalog, db: Db, ss: seq<Statement>, role: string)
    requires ExecAll(cat, db, ss).Some? && forall s :: s in ss && Settles(s) ==> s.role != role
    ensures AccountOf(ExecAll(cat, db, ss).value, role) == AccountOf(db, role)
    ensures !db.publicCreates || RevokePublicCreate in ss ==> !ExecAll(cat, db, ss).value.publicCreates
    decreases |ss|
  {
    hide Runs;
    if ss != [] {
      assert ss[0] in ss && ss == [ss[0]] + ss[1..];
      OthersSettleNothing(cat, Exec(cat, db, ss[0]), ss[1..], role);
    }
  }

  lemma {:induction false} RevokesSettleNothing(role: string, own: Option<string>, schemas: seq<string>)
    ensures forall s :: s in Revokes(role, own, schemas) ==> !Settles(s)
  {
    if schemas != [] { RevokesSettleNothing(role, own, schemas[1..]); }
  }

  lemma {:induction false} SharedSettleNothing(role: string, shared: seq<string>)
    ensures forall s :: s in SharedGrants(role, shared) ==> !Settles(s)
  {
    if shared != [] { SharedSettleNothing(role, shared[1..]); }
  }

  lemma {:induction false} ReadSettleNothing(role: string, read: seq<string>)
    requires ReadGrants(role, read).Some?
    ensures forall s :: s in ReadGrants(role, read).value ==> !Settles(s)
  {
    if read != [] { ReadSettleNothing(role, read[1..]); }
  }

  /** After the preamble a module's statements settle nothing more. */
  lemma RestSettlesNothing(role: string, spec: Spec, schemas: seq<string>)
    requires ReadGrants(role, spec.read).Some?
    ensures forall s :: s in Revokes(role, spec.schema, schemas) + Grants(role, spec) ==> !Settles(s)
  {
    hide SplitDot;
    RevokesSettleNothing(role, spec.schema, schemas);
    SharedSettleNothing(role, spec.shared);
    ReadSettleNothing(role, spec.read);
  }

  lemma {:induction false} ExecAllPlus(cat: Catalog, db: Db, a: seq<Statement>, b: seq<Statement>)
    ensures ExecAll(cat, db, a + b) ==
      if ExecAll(cat, db, a).Some? then ExecAll(cat, ExecAll(cat, db, a).value, b) else None
    decreases |a|
  {
    hide Exec, Runs;
    if a == [] {
      assert a + b == b;
    } else {
      assert (a + b)[1..] == a[1..] + b;
      if Runs(cat, db, a[0]) { ExecAllPlus(cat, Exec(cat, db, a[0]), a[1..], b); }
    }
  }

  /** The preamble makes the account what the module asks for. */
  lemma PreambleSettles(cat: Catalog, db: Db, role: string, own: seq<string>, password: Option<string>)
    requires ExecAll(cat, db, Preamble(role, own, password)).Some?
    ensures var after := ExecAll(cat, db, Preamble(role, own, password)).value;
      AccountOf(after, role) == Account(role in db.roles, Some(password), Some(own + ["public"]), true) && !after.publicCreates
  {
    var a, b, c, d := Login(role, password), SearchPath(role, own + ["public"]), GrantConnect(role), RevokePublicCreate;
    assert Preamble(role, own, password) == [a] + [b, c, d] && [b, c, d] == [b] + [c, d] && [c, d] == [c] + [d] && [d] == [d] + [];
    var db1 := Exec(cat, db, a);
    var db2 := Exec(cat, db1, b);
    var db3 := Exec(cat, db2, c);
    ExecFirst(cat, db, a, [b, c, d]);
    ExecFirst(cat, db1, b, [c, d]);
    ExecFirst(cat, db2, c, [d]);
    ExecFirst(cat, db3, d, []);
  }

  lemma ExecFirst(cat: Catalog, db: Db, s: Statement, ss: seq<Statement>)
    requires ExecAll(cat, db, [s] + ss).Some?
    ensures ExecAll(cat, db, [s] + ss) == ExecAll(cat, Exec(cat, db, s), ss)
  {
    hide Exec, Runs;
    assert ([s] + ss)[1..] == ss;
  }

  lemma StatementsSplit(role: string, spec: Spec, password: Option<string>, schemas: seq<string>)
    requires Statements(role, spec, password, schemas).Some?
    ensures Statements(role, spec, password, schemas).value
         == Preamble(role, Own(spec), password) + (Revokes(role, spec.schema, schemas) + Grants(role, spec))
  {
    hide Preamble, Revokes, Grants;
    Assoc(Preamble(role, Own(spec), password), Revokes(role, spec.schema, schemas), Grants(role, spec));
  }

  lemma StepSettles(x: Setting, db: Db, m: Module, role: string)
    requires Step(x, db, m).Some?
    ensures Taken(x, m) && m.Role() == role ==>
      && AccountOf(Step(x, db, m).value, role) == Account(true, Some(Some(x.passwords[m.name])), Some(Own(m.spec) + ["public"]), true)
      && !Step(x, db, m).value.publicCreates
    ensures !(Taken(x, m) && m.Role() == role) ==> AccountOf(Step(x, db, m).value, role) == AccountOf(db, role)
    ensures !db.publicCreates ==> !Step(x, db, m).value.publicCreates
  {
    hide ExecAll, Preamble, Revokes, Grants, Own, RoleName;
    if Taken(x, m) {
      var r, password := m.Role(), Some(x.passwords[m.name]);
      var db0 := db.(roles := db.roles + {r});
      var head, rest := Preamble(r, Own(m.spec), password), Revokes(r, m.spec.schema, x.schemas) + Grants(r, m.spec);
      StatementsSplit(r, m.spec, password, x.schemas);
      ExecAllPlus(x.cat, db0, head, rest);
      RestSettlesNothing(r, m.spec, x.schemas);
      OthersSettleNothing(x.cat, ExecAll(x.cat, db0, head).value, rest, role);
      if r == role {
        PreambleSettles(x.cat, db0, r, Own(m.spec), password);
      } else {
        PreambleOthers(r, Own(m.spec), password, role);
        OthersSettleNothing(x.cat, db0, head, role);
      }
    }
  }

  lemma PreambleOthers(r: string, own: seq<string>, password: Option<string>, role: string)
    requires r != role
    ensures forall s :: s in Preamble(r, own, password) && Settles(s) ==> s.role != role
    ensures RevokePublicCreate in Preamble(r, own, password)
  {
    assert Preamble(r, own, password)[3] == RevokePublicCreate;
  }

  /**
   * After a committed run the role of each module exists, logs in with the password of its file, looks its tables up in its own
   * schema before `public`, and may connect; other accounts are untouched.
   */
  lemma {:induction false} AccountsExact(x: Setting, db: Db, ms: seq<Module>, role: string)
    requires Reconcile(x, db, ms).Some?
    ensures var m := Last(x, ms, role); var after := Reconcile(x, db, ms).value;
      && (m.Some? ==> m.value.name in x.passwords)
      && AccountOf(after, role) ==
           (if m.Some? then Account(true, Some(Some(x.passwords[m.value.name])), Some(Own(m.value.spec) + ["public"]), true)
            else AccountOf(db, role))
      && (m.Some? || !db.publicCreates ==> !after.publicCreates)
    decreases |ms|
  {
    hide Migrated, RoleName, AccountOf, Statements;
    if ms != [] {
      StepSettles(x, db, ms[0], role);
      AccountsExact(x, Step(x, db, ms[0]).value, ms[1..], role);
    }
  }

  lemma {:induction false} PublicExact(x: Setting, db: Db, ms: seq<Module>)
    requires Reconcile(x, db, ms).Some?
    ensures Reconcile(x, db, ms).value.publicCreates <==> db.publicCreates && forall m :: m in ms ==> !Taken(x, m)
    decreases |ms|
  {
    hide Migrated, RoleName, AccountOf, Statements, ExecAll, Taken;
    if ms != [] {
      assert ms[0] in ms && forall m :: m in ms <==> m == ms[0] || m in ms[1..];
      StepSettles(x, db, ms[0], ms[0].Role());
      StepPublic(x, db, ms[0]);
      PublicExact(x, Step(x, db, ms[0]).value, ms[1..]);
    }
  }

  lemma StepPublic(x: Setting, db: Db, m: Module)
    requires Step(x, db, m).Some?
    ensures !Taken(x, m) ==> Step(x, db, m).value.publicCreates == db.publicCreates
  {
  }

  /**
   * After a committed run nobody may create in `public` by the right of everyone, and a module's role may only if `public` is its
   * own schema and it had the right before.
   */
  lemma NoCreateInPublic(x: Setting, db: Db, ms: seq<Module>, m: Module)
    requires Reconcile(x, db, ms).Some? && "public" in x.schemas && m in ms && Taken(x, m) && OwnRoles(x, ms)
    ensures !Reconcile(x, db, ms).value.publicCreates
    ensures var g := SchemaGrant(m.Role(), "public", CREATE);
      g in Reconcile(x, db, ms).value.schemaGrants <==> (m.spec.schema == Some("public") && g in db.schemaGrants)
  {
    hide Reconcile, Taken, RoleName, Last;
    var g := SchemaGrant(m.Role(), "public", CREATE);
    SchemasExact(x, db, ms, g);
    LastIs(x, ms, g.role);
    PublicExact(x, db, ms);
  }

  /** Two states with the same rights and accounts are the same. */
  lemma SameState(a: Db, b: Db)
    requires forall r :: Has(a, r) <==> Has(b, r)
    requires forall role :: AccountOf(a, role) == AccountOf(b, role)
    requires a.publicCreates == b.publicCreates && a.ownerPath == b.ownerPath
    ensures a == b
  {
    forall role: string ensures role in a.roles <==> role in b.roles { assert AccountOf(a, role) == AccountOf(b, role); }
    forall role: string ensures role in a.connects <==> role in b.connects { assert AccountOf(a, role) == AccountOf(b, role); }
    SameLogins(a, b);
    SamePaths(a, b);
    SameGrants(a, b);
  }

  lemma SameLogins(a: Db, b: Db)
    requires forall role :: AccountOf(a, role) == AccountOf(b, role)
    ensures a.login == b.login
  {
    forall role: string ensures role in a.login <==> role in b.login { assert AccountOf(a, role) == AccountOf(b, role); }
    forall role | role in a.login ensures a.login[role] == b.login[role] { assert AccountOf(a, role) == AccountOf(b, role); }
  }

  lemma SamePaths(a: Db, b: Db)
    requires forall role :: AccountOf(a, role) == AccountOf(b, role)
    ensures a.paths == b.paths
  {
    forall role: string ensures role in a.paths <==> role in b.paths { assert AccountOf(a, role) == AccountOf(b, role); }
    forall role | role in a.paths ensures a.paths[role] == b.paths[role] { assert AccountOf(a, role) == AccountOf(b, role); }
  }

  lemma SameGrants(a: Db, b: Db)
    requires forall r :: Has(a, r) <==> Has(b, r)
    ensures a.tableGrants == b.tableGrants && a.schemaGrants == b.schemaGrants
    ensures a.sequenceGrants == b.sequenceGrants && a.defaults == b.defaults
  {
    forall g ensures g in a.tableGrants <==> g in b.tableGrants { assert Has(a, OnTable(g)) <==> Has(b, OnTable(g)); }
    forall g ensures g in a.schemaGrants <==> g in b.schemaGrants { assert Has(a, OnSchema(g)) <==> Has(b, OnSchema(g)); }
    forall g ensures g in a.sequenceGrants <==> g in b.sequenceGrants { assert Has(a, OnSequence(g)) <==> Has(b, OnSequence(g)); }
    forall g ensures g in a.defaults <==> g in b.defaults { assert Has(a, OnDefault(g)) <==> Has(b, OnDefault(g)); }
  }

  lemma {:induction false} StatementsKeepPath(cat: Catalog, db: Db, ss: seq<Statement>)
    requires ExecAll(cat, db, ss).Some?
    ensures ExecAll(cat, db, ss).value.ownerPath == db.ownerPath
    decreases |ss|
  {
    hide Runs;
    if ss != [] { StatementsKeepPath(cat, Exec(cat, db, ss[0]), ss[1..]); }
  }

  /** No module's statements touch the owner's search path. */
  lemma {:induction false} OwnerPathStays(x: Setting, db: Db, ms: seq<Module>)
    requires Reconcile(x, db, ms).Some?
    ensures Reconcile(x, db, ms).value.ownerPath == db.ownerPath
    decreases |ms|
  {
    hide Migrated, RoleName, Statements, ExecAll;
    if ms != [] {
      var m := ms[0];
      if Taken(x, m) {
        StatementsKeepPath(x.cat, db.(roles := db.roles + {m.Role()}), Statements(m.Role(), m.spec, Some(x.passwords[m.name]), x.schemas).value);
      }
      OwnerPathStays(x, Step(x, db, m).value, ms[1..]);
    }
  }

  lemma ReconcilingAgain(x: Setting, db: Db, ms: seq<Module>)
    requires Reconcile(x, db, ms).Some?
    ensures Reconcile(x, Reconcile(x, db, ms).value, ms) == Reconcile(x, db, ms)
  {
    hide *;
    var once := Reconcile(x, db, ms).value;
    CommitsExactly(x, db, ms);
    CommitsExactly(x, once, ms);
    var twice := Reconcile(x, once, ms).value;
    forall r ensures Has(twice, r) <==> Has(once, r) {
      RunHas(x, db, ms, r);
      RunHas(x, once, ms, r);
      RunIsMonotone(x, ms, r);
    }
    forall role ensures AccountOf(twice, role) == AccountOf(once, role) {
      AccountsExact(x, db, ms, role);
      AccountsExact(x, once, ms, role);
    }
    OwnerPathStays(x, db, ms);
    OwnerPathStays(x, once, ms);
    PublicExact(x, db, ms);
    PublicExact(x, once, ms);
    SameState(twice, once);
  }

  /** Running again commits and changes nothing at all. */
  lemma RunningAgain(x: Setting, db: Db, ms: seq<Module>)
    requires ReconcileAll(x, db, ms).Some?
    ensures ReconcileAll(x, ReconcileAll(x, db, ms).value, ms) == ReconcileAll(x, db, ms)
  {
    hide Reconcile, Among;
    ReconcilingAgain(x, WithOwnerPath(x, db, ms), ms);
    OwnerPathStays(x, WithOwnerPath(x, db, ms), ms);
  }

  lemma SameLast(x: Setting, ms: seq<Module>, ns: seq<Module>, role: string)
    requires OwnRoles(x, ms) && forall m :: m in ms <==> m in ns
    ensures Last(x, ms, role) == Last(x, ns, role) && OwnRoles(x, ns)
  {
    hide Taken, RoleName, Last;
    LastIs(x, ms, role);
    LastIs(x, ns, role);
  }

  lemma AnyOrder(x: Setting, db: Db, ms: seq<Module>, ns: seq<Module>)
    requires OwnRoles(x, ms) && forall m :: m in ms <==> m in ns
    ensures Reconcile(x, db, ms) == Reconcile(x, db, ns)
  {
    hide *;
    CommitsExactly(x, db, ms);
    CommitsExactly(x, db, ns);
    if Reconcile(x, db, ms).Some? {
      var a, b := Reconcile(x, db, ms).value, Reconcile(x, db, ns).value;
      forall r ensures Has(a, r) <==> Has(b, r) {
        SameLast(x, ms, ns, r.Role());
        RunHas(x, db, ms, r);
        RunHas(x, db, ns, r);
        RightsExact(x, ms, r, Has(db, r));
        RightsExact(x, ns, r, Has(db, r));
      }
      forall role ensures AccountOf(a, role) == AccountOf(b, role) {
        SameLast(x, ms, ns, role);
        AccountsExact(x, db, ms, role);
        AccountsExact(x, db, ns, role);
      }
      OwnerPathStays(x, db, ms);
      OwnerPathStays(x, db, ns);
      PublicExact(x, db, ms);
      PublicExact(x, db, ns);
      SameState(a, b);
    }
  }

  /** When every module taken has a role of its own, neither the order of the modules nor their repetition matters to any outcome. */
  lemma OrderDoesNotMatter(x: Setting, db: Db, ms: seq<Module>, ns: seq<Module>)
    requires OwnRoles(x, ms) && forall m :: m in ms <==> m in ns
    ensures ReconcileAll(x, db, ms) == ReconcileAll(x, db, ns)
  {
    hide Reconcile, Among, OwnRoles;
    assert OwnSchemas(x, ms) == OwnSchemas(x, ns);
    AnyOrder(x, WithOwnerPath(x, db, ms), ms, ns);
  }

  // ---------------------------------------------------------------- the program

  /** The connection: `db` is what the transaction sees, `saved` what was committed last. */
  class Connection {
    const cat: Catalog
    var db: Db
    var saved: Db
    var failed: bool

    constructor (cat: Catalog, db: Db)
      ensures this.cat == cat && this.db == db && saved == db && !failed
    {
      this.cat, this.db, saved, failed := cat, db, db, false;
    }

    /** `cur.execute`; a failed statement raises, and nothing is executed after it. */
    method Execute(s: Statement)
      requires !failed
      modifies this`db, this`failed
      ensures failed == !Runs(cat, old(db), s)
      ensures db == if failed then old(db) else Exec(cat, old(db), s)
    {
      if Runs(cat, db, s) { db := Exec(cat, db, s); } else { failed := true; }
    }

    method ExecuteAll(ss: seq<Statement>)
      requires !failed
      modifies this`db, this`failed
      ensures failed == ExecAll(cat, old(db), ss).None?
      ensures !failed ==> db == ExecAll(cat, old(db), ss).value
    {
      hide Exec, Runs;
      assert ss[0..] == ss;
      for i := 0 to |ss|
        invariant !failed && ExecAll(cat, db, ss[i..]) == ExecAll(cat, old(db), ss)
      {
        assert ss[i..][1..] == ss[i + 1..];
        Execute(ss[i]);
        if failed { return; }
      }
    }

    /** The reconciliation of `main`: one transaction, rolled back when anything fails. */
    method Run(x: Setting, ms: seq<Module>)
      requires x.cat == cat && !failed && saved == db
      modifies this
      ensures var r := ReconcileAll(x, old(db), ms);
        failed == r.None? && db == saved && saved == if failed then old(saved) else r.value
    {
      hide Migrated, Statements, ExecAll;
      var own := OwnPath(x, ms);
      if own != [] { db := db.(ownerPath := Some(own + ["public"])); }
      assert ms[0..] == ms;
      for i := 0 to |ms|
        invariant !failed && saved == old(db) && Reconcile(x, db, ms[i..]) == ReconcileAll(x, old(db), ms)
      {
        assert ms[i..][1..] == ms[i + 1..] && ms[i..][0] == ms[i];
        if Taken(x, ms[i]) {
          var role := ms[i].Role();
          ghost var before := db;
          db := db.(roles := db.roles + {role});
          var ss := Statements(role, ms[i].spec, Some(x.passwords[ms[i].name]), x.schemas);
          if ss.None? {
            failed := true;
          } else {
            ExecuteAll(ss.value);
          }
          if failed {
            assert Step(x, before, ms[i]).None?;
            db := saved;
            return;
          }
        }
      }
      saved := db;
    }
  }

  /** The schemas of the owner's search path. */
  method OwnPath(x: Setting, ms: seq<Module>) returns (own: seq<string>)
    ensures own == Among(x.schemas, OwnSchemas(x, ms))
  {
    var found: set<string> := {};
    for i := 0 to |ms|
      invariant found == OwnSchemas(x, ms[..i])
    {
      assert ms[..i + 1] == ms[..i] + [ms[i]];
      OneMoreModule(x, ms[..i], ms[i]);
      if ms[i].spec.schema.Some? && ms[i].spec.schema.value in x.schemas { found := found + {ms[i].spec.schema.value}; }
    }
    assert ms[..|ms|] == ms && x.schemas[0..] == x.schemas;
    own := [];
    for i := 0 to |x.schemas|
      invariant own + Among(x.schemas[i..], found) == Among(x.schemas, found)
    {
      assert x.schemas[i..][1..] == x.schemas[i + 1..];
      var more := if x.schemas[i] in found then [x.schemas[i]] else [];
      Assoc(own, more, Among(x.schemas[i + 1..], found));
      own := own + more;
    }
    assert own + [] == own;
  }

  lemma OneMoreModule(x: Setting, ms: seq<Module>, m: Module)
    ensures OwnSchemas(x, ms + [m])
         == OwnSchemas(x, ms) + (if m.spec.schema.Some? && m.spec.schema.value in x.schemas then {m.spec.schema.value} else {})
  {
    assert forall n :: n in ms + [m] <==> n in ms || n == m;
  }

  /** The loop that builds the revokes. */
  method BuildRevokes(role: string, own: Option<string>, schemas: seq<string>) returns (out: seq<Statement>)
    ensures out == Revokes(role, own, schemas)
  {
    out := [];
    assert schemas[0..] == schemas;
    for i := 0 to |schemas|
      invariant out + Revokes(role, own, schemas[i..]) == Revokes(role, own, schemas)
    {
      assert schemas[i..][1..] == schemas[i + 1..];
      var more := [RevokeTables(role, schemas[i]), RevokeSequences(role, schemas[i])];
      if Some(schemas[i]) != own { more := more + [RevokeSchema(role, schemas[i])]; }
      Assoc(out, more, Revokes(role, own, schemas[i + 1..]));
      out := out + more;
    }
    assert out + [] == out;
  }
}
