/** Whole documents compared, operation by operation. */
module SpecCompat {
  import opened Text
  import opened SchemaModel
  import opened SchemaCompat

  datatype Param = Param(loc: string, name: string, required: bool, schema: Option<Schema>)
  datatype Media = Media(schema: Option<Schema>, other: bool)
  type Content = seq<(string, Media)>
  datatype Body = Body(required: bool, content: Content)
  datatype Operation = Operation(params: seq<Param>, body: Body, responses: map<string, Content>)
  datatype PathItem = PathItem(params: seq<Param>, ops: map<string, Operation>)
  datatype Document = Document(paths: map<string, PathItem>, schemas: Spec)

  type Key = (string, string)

  predicate IsMethod(m: string) {
    m == "get" || m == "put" || m == "post" || m == "delete" || m == "patch" || m == "head" || m == "options"
  }

  // ---------------------------------------------------------------- parameters, bodies and responses

  function AddParams(known: map<Key, Param>, ps: seq<Param>): map<Key, Param>
    decreases |ps|
  {
    if ps == [] then known else AddParams(known[(ps[0].loc, ps[0].name) := ps[0]], ps[1..])
  }

  /** The parameters of an operation by location and name, those of the path first. */
  function Parameters(item: PathItem, op: Operation): map<Key, Param> {
    AddParams(map[], item.params + op.params)
  }

  /** The last parameter of a key is the one that counts, so the operation's own replace the path's. */
  lemma {:induction false} LastParamWins(known: map<Key, Param>, ps: seq<Param>, i: nat)
    requires i < |ps| && forall j :: i < j < |ps| ==> (ps[j].loc, ps[j].name) != (ps[i].loc, ps[i].name)
    ensures var k := (ps[i].loc, ps[i].name); k in AddParams(known, ps) && AddParams(known, ps)[k] == ps[i]
    decreases |ps|
  {
    var k1 := known[(ps[0].loc, ps[0].name) := ps[0]];
    if i > 0 {
      assert forall j :: i - 1 < j < |ps[1..]| ==> ps[1..][j] == ps[j + 1];
      LastParamWins(k1, ps[1..], i - 1);
    } else {
      OthersKeep(k1, ps[1..], (ps[0].loc, ps[0].name));
    }
  }

  lemma {:induction false} OthersKeep(known: map<Key, Param>, ps: seq<Param>, k: Key)
    requires k in known && forall j :: 0 <= j < |ps| ==> (ps[j].loc, ps[j].name) != k
    ensures k in AddParams(known, ps) && AddParams(known, ps)[k] == known[k]
    decreases |ps|
  {
    if ps != [] {
      assert (ps[0].loc, ps[0].name) != k;
      OthersKeep(known[(ps[0].loc, ps[0].name) := ps[0]], ps[1..], k);
    }
  }

  function SchemaOf(p: Param): Schema {
    if p.schema.Some? then p.schema.value else BLANK
  }

  function Find(content: Content, mime: string): Media {
    if content == [] then Media(None, false) else if content[0].0 == mime then content[0].1 else Find(content[1..], mime)
  }

  /** The schema a comparison looks at, when there is one that says anything. */
  function Told(m: Media): Option<Schema> {
    if m.schema == Some(BLANK) then None else m.schema
  }

  const JSON := "application/json"

  /** The media type whose schema a body comparison looks at: JSON when its entry says anything, else the first one listed. */
  function BodyMedia(content: Content): Option<string> {
    var json := Find(content, JSON);
    if json.schema.Some? || json.other then Some(JSON) else if content != [] then Some(content[0].0) else None
  }

  /** `body_schema` */
  function BodySchema(content: Content): Option<Schema> {
    var mime := BodyMedia(content);
    if mime.Some? then Told(Find(content, mime.value)) else None
  }

  function ReplySchema(content: Content): Option<Schema> {
    Told(Find(content, JSON))
  }

  predicate Success(status: string) {
    |status| > 0 && status[0] == '2'
  }

  // ---------------------------------------------------------------- compare_specs

  function ParamFindings(os: Spec, was: map<Key, Param>, ns: Spec, now: map<Key, Param>, k: Key, stack: nat): set<Finding>
    requires k in now
  {
    var where := k.0 + " " + k.1;
    (if now[k].required && (k !in was || !was[k].required) then {NewRequiredParameter(where)} else {})
    + (if k in was then Compare(os, SchemaOf(was[k]), ns, SchemaOf(now[k]), where, true, 0, stack) else {})
  }

  function CompareTold(os: Spec, was: Option<Schema>, ns: Spec, now: Option<Schema>, where: string, request: bool, stack: nat): set<Finding> {
    if was.Some? && now.Some? then Compare(os, was.value, ns, now.value, where, request, 0, stack) else {}
  }

  function ReplyFindings(os: Spec, was: map<string, Content>, ns: Spec, now: map<string, Content>, status: string, stack: nat): set<Finding>
    requires status in was
  {
    if status !in now then {RemovedResponse(status)}
    else CompareTold(os, ReplySchema(was[status]), ns, ReplySchema(now[status]), "response " + status, false, stack)
  }

  function BodyFindings(os: Spec, was: Body, ns: Spec, now: Body, stack: nat): set<Finding> {
    (if now.required && !was.required then {NewRequiredParameter("body")} else {})
    + CompareTold(os, BodySchema(was.content), ns, BodySchema(now.content), "body", true, stack)
  }

  function ParamsFindings(os: Spec, op: map<Key, Param>, ns: Spec, np: map<Key, Param>, stack: nat): set<Finding> {
    set k, f | k in np && f in ParamFindings(os, op, ns, np, k, stack) :: f
  }

  function RepliesFindings(os: Spec, was: map<string, Content>, ns: Spec, now: map<string, Content>, stack: nat): set<Finding> {
    set s, f | s in was && Success(s) && f in ReplyFindings(os, was, ns, now, s, stack) :: f
  }

  function CompareOperation(
      os: Spec, wasItem: PathItem, was: Operation, ns: Spec, nowItem: PathItem, now: Operation, stack: nat): set<Finding>
  {
    ParamsFindings(os, Parameters(wasItem, was), ns, Parameters(nowItem, now), stack)
    + BodyFindings(os, was.body, ns, now.body, stack)
    + RepliesFindings(os, was.responses, ns, now.responses, stack)
  }

  datatype Break = Break(verb: string, path: string, finding: Finding)

  predicate Survives(now: Document, path: string, verb: string) {
    path in now.paths && verb in now.paths[path].ops
  }

  function OperationBreaks(was: Document, now: Document, path: string, verb: string, stack: nat): set<Finding>
    requires path in was.paths && verb in was.paths[path].ops
  {
    if !Survives(now, path, verb) then {RemovedOperation}
    else CompareOperation(was.schemas, was.paths[path], was.paths[path].ops[verb],
                          now.schemas, now.paths[path], now.paths[path].ops[verb], stack)
  }

  function CompareSpecs(was: Document, now: Document, stack: nat): set<Break> {
    set path, verb, f | path in was.paths && verb in was.paths[path].ops && IsMethod(verb)
      && f in OperationBreaks(was, now, path, verb, stack) :: Break(verb, path, f)
  }

  lemma OperationSplits(os: Spec, wasItem: PathItem, was: Operation, ns: Spec, nowItem: PathItem, now: Operation, stack: nat)
    ensures var op, np := Parameters(wasItem, was), Parameters(nowItem, now);
      CompareOperation(os, wasItem, was, ns, nowItem, now, stack) == {} <==>
        && (forall k :: k in np ==> ParamFindings(os, op, ns, np, k, stack) == {})
        && BodyFindings(os, was.body, ns, now.body, stack) == {}
        && (forall status :: status in was.responses && Success(status) ==>
              ReplyFindings(os, was.responses, ns, now.responses, status, stack) == {})
  {
    hide ParamFindings, BodyFindings, ReplyFindings, Success, Parameters;
    var op, np := Parameters(wasItem, was), Parameters(nowItem, now);
    var ps, rs := ParamsFindings(os, op, ns, np, stack), RepliesFindings(os, was.responses, ns, now.responses, stack);
    assert forall k, f :: (k in np && f in ParamFindings(os, op, ns, np, k, stack)) ==> f in ps;
    assert forall s, f ::
      (s in was.responses && Success(s) && f in ReplyFindings(os, was.responses, ns, now.responses, s, stack)) ==> f in rs;
    assert ps == {} <==> (forall k :: k in np ==> ParamFindings(os, op, ns, np, k, stack) == {});
    assert rs == {} <==> (forall s :: s in was.responses && Success(s) ==>
      ReplyFindings(os, was.responses, ns, now.responses, s, stack) == {});
  }

  lemma SpecsSplit(was: Document, now: Document, stack: nat)
    ensures CompareSpecs(was, now, stack) == {} <==>
      forall path, verb :: path in was.paths && verb in was.paths[path].ops && IsMethod(verb) ==>
        OperationBreaks(was, now, path, verb, stack) == {}
  {
    hide OperationBreaks, IsMethod;
    var bs := CompareSpecs(was, now, stack);
    assert forall path, verb, f ::
      (path in was.paths && verb in was.paths[path].ops && IsMethod(verb) && f in OperationBreaks(was, now, path, verb, stack))
      ==> Break(verb, path, f) in bs;
  }

  // ---------------------------------------------------------------- requests and replies

  /** A body or a reply on the wire. */
  datatype Payload = Payload(mime: string, value: Json)
  datatype Request = Request(params: map<Key, Json>, body: Option<Payload>)

  predicate Lists(content: Content, mime: string) {
    exists i :: 0 <= i < |content| && content[i].0 == mime
  }

  /** The payload has a listed media type and meets that type's own schema. */
  ghost predicate Takes(spec: Spec, content: Content, p: Payload, matches: (string, string) -> bool) {
    && Lists(content, p.mime)
    && var s := Told(Find(content, p.mime));
      s.Some? ==> Valid(spec, s.value, p.value, matches)
  }

  /** Nothing in the payload is undeclared. */
  ghost predicate KnownPayload(spec: Spec, content: Content, p: Payload) {
    var s := Told(Find(content, p.mime));
    s.Some? ==> Declared(spec, s.value, p.value)
  }

  ghost predicate Accepts(spec: Spec, item: PathItem, op: Operation, r: Request, matches: (string, string) -> bool) {
    && (forall k :: k in Parameters(item, op) ==>
          && (Parameters(item, op)[k].required ==> k in r.params)
          && (k in r.params ==> Valid(spec, SchemaOf(Parameters(item, op)[k]), r.params[k], matches)))
    && (op.body.required ==> r.body.Some?)
    && (r.body.Some? ==> Takes(spec, op.body.content, r.body.value, matches))
  }

  /** Nothing in the request is undeclared. */
  ghost predicate Known(spec: Spec, item: PathItem, op: Operation, r: Request) {
    && (forall k :: k in r.params ==> k in Parameters(item, op) && Declared(spec, SchemaOf(Parameters(item, op)[k]), r.params[k]))
    && (r.body.Some? ==> KnownPayload(spec, op.body.content, r.body.value))
  }

  /**
   * The schemas of a media type can be compared, and are: they are the two the check looks at, or would be found clean if it
   * did look at them.
   */
  ghost predicate ComparableMedia(os: Spec, was: Content, ns: Spec, now: Content, mime: string, stack: nat) {
    var o, n := Told(Find(was, mime)), Told(Find(now, mime));
    && (n.Some? ==> o.Some? && Comparable(os, o.value, ns, n.value, 0))
    && (|| (BodyMedia(was) == Some(mime) && BodyMedia(now) == Some(mime))
        || CompareTold(os, o, ns, n, "body", true, stack) == {})
  }

  /** Every schema a request meets is one the comparison can be relied on for, and every media type of the body is kept. */
  ghost predicate ComparableRequests(
      os: Spec, wasItem: PathItem, was: Operation, ns: Spec, nowItem: PathItem, now: Operation, stack: nat)
  {
    var op, np := Parameters(wasItem, was), Parameters(nowItem, now);
    && (forall k :: k in op && k in np ==> Comparable(os, SchemaOf(op[k]), ns, SchemaOf(np[k]), 0))
    && (forall mime :: Lists(was.body.content, mime) ==>
          Lists(now.body.content, mime) && ComparableMedia(os, was.body.content, ns, now.body.content, mime, stack))
  }

  /** A clean body comparison keeps every payload of a media type the new release still lists. */
  lemma PayloadStays(os: Spec, was: Body, ns: Spec, now: Body, stack: nat, p: Payload, matches: (string, string) -> bool)
    requires BodyFindings(os, was, ns, now, stack) == {}
    requires Lists(now.content, p.mime) && ComparableMedia(os, was.content, ns, now.content, p.mime, stack)
    requires Takes(os, was.content, p, matches) && KnownPayload(os, was.content, p)
    ensures Takes(ns, now.content, p, matches)
  {
    hide Compare, Valid, Declared, Comparable, BodyMedia, Find, Told, Lists;
    var o, n := Told(Find(was.content, p.mime)), Told(Find(now.content, p.mime));
    if n.Some? {
      assert Compare(os, o.value, ns, n.value, "body", true, 0, stack) == {};
      RequestSound(os, o.value, ns, n.value, "body", 0, stack, p.value, matches);
    }
  }

  /** A clean operation still takes every request that sends only what the old release declared. */
  lemma RequestsStay(os: Spec, wasItem: PathItem, was: Operation, ns: Spec, nowItem: PathItem, now: Operation, stack: nat,
                     r: Request, matches: (string, string) -> bool)
    requires CompareOperation(os, wasItem, was, ns, nowItem, now, stack) == {}
    requires ComparableRequests(os, wasItem, was, ns, nowItem, now, stack)
    requires Accepts(os, wasItem, was, r, matches) && Known(os, wasItem, was, r)
    ensures Accepts(ns, nowItem, now, r, matches)
  {
    hide CompareOperation, Parameters, Compare, Valid, Declared, Comparable, BodySchema, ComparableMedia, KnownPayload;
    OperationSplits(os, wasItem, was, ns, nowItem, now, stack);
    var op, np := Parameters(wasItem, was), Parameters(nowItem, now);
    forall k | k in np
      ensures (np[k].required ==> k in r.params) && (k in r.params ==> Valid(ns, SchemaOf(np[k]), r.params[k], matches))
    {
      assert ParamFindings(os, op, ns, np, k, stack) == {};
      if k in r.params {
        RequestSound(os, SchemaOf(op[k]), ns, SchemaOf(np[k]), k.0 + " " + k.1, 0, stack, r.params[k], matches);
      }
    }
    if r.body.Some? { PayloadStays(os, was.body, ns, now.body, stack, r.body.value, matches); }
  }

  /**
   * The exact condition on media types: where those that stay are comparable and each old one has a payload, the new release
   * takes every old payload exactly when it lists every old media type.
   */
  lemma MediaStayExactly(os: Spec, was: Body, ns: Spec, now: Body, stack: nat, matches: (string, string) -> bool)
    requires BodyFindings(os, was, ns, now, stack) == {}
    requires forall mime :: Lists(was.content, mime) && Lists(now.content, mime) ==>
      ComparableMedia(os, was.content, ns, now.content, mime, stack)
    requires forall mime :: Lists(was.content, mime) ==>
      exists j :: Takes(os, was.content, Payload(mime, j), matches) && KnownPayload(os, was.content, Payload(mime, j))
    ensures (forall p :: Takes(os, was.content, p, matches) && KnownPayload(os, was.content, p) ==> Takes(ns, now.content, p, matches))
       <==> (forall mime :: Lists(was.content, mime) ==> Lists(now.content, mime))
  {
    hide BodyFindings, ComparableMedia, KnownPayload, Lists, Find, Told;
    if forall mime :: Lists(was.content, mime) ==> Lists(now.content, mime) {
      forall p | Takes(os, was.content, p, matches) && KnownPayload(os, was.content, p) ensures Takes(ns, now.content, p, matches) {
        PayloadStays(os, was, ns, now, stack, p, matches);
      }
    } else {
      var mime :| Lists(was.content, mime) && !Lists(now.content, mime);
      var j :| Takes(os, was.content, Payload(mime, j), matches) && KnownPayload(os, was.content, Payload(mime, j));
      assert !Takes(ns, now.content, Payload(mime, j), matches);
    }
  }

  lemma OneMedia(mime: string, m: Media)
    ensures Find([(mime, m)], mime) == m && BodyMedia([(mime, m)]) == Some(mime)
    ensures forall other :: Lists([(mime, m)], other) <==> other == mime
  {
    var c := [(mime, m)];
    assert c[0].0 == mime;
    assert c[1..] == [] && forall other :: other != mime ==> Find(c, other) == Find([], other);
  }

  /** A body documented under another media type with the same schema: nothing is reported, and no old payload is taken any more. */
  lemma MovedMediaEscapes(spec: Spec, s: Schema, wasMime: string, nowMime: string, required: bool, stack: nat,
                          p: Payload, matches: (string, string) -> bool)
    requires wasMime != nowMime && Regular(spec, s, true, 0, stack)
    ensures var was := Body(required, [(wasMime, Media(Some(s), false))]); var now := Body(required, [(nowMime, Media(Some(s), false))]);
      && BodyFindings(spec, was, spec, now, stack) == {}
      && !(Takes(spec, was.content, p, matches) && Takes(spec, now.content, p, matches))
  {
    hide Regular, Compare, Valid;
    var m := Media(Some(s), false);
    OneMedia(wasMime, m);
    OneMedia(nowMime, m);
    hide Find, BodyMedia, Lists;
    SelfCompare(spec, s, "body", true, 0, stack);
  }

  /** With a JSON schema in place, other media types of a body are never looked at: adding, changing or dropping them changes nothing. */
  lemma {:induction false} OtherMediaAreUnread(content: Content, others: Content)
    requires Find(content, JSON).schema.Some?
    ensures Find(content + others, JSON) == Find(content, JSON) && BodySchema(content + others) == BodySchema(content)
    decreases |content|
  {
    if content[0].0 != JSON {
      OtherMediaAreUnread(content[1..], others);
      assert (content + others)[1..] == content[1..] + others;
    }
  }

  /**
   * A clean operation still documents every success, and its JSON replies keep the types the old release promised, with the
   * names it promised where the new schema still requires them.
   */
  lemma RepliesStay(os: Spec, wasItem: PathItem, was: Operation, ns: Spec, nowItem: PathItem, now: Operation, stack: nat,
                    status: string, p: Payload, names: bool, matches: (string, string) -> bool)
    requires CompareOperation(os, wasItem, was, ns, nowItem, now, stack) == {}
    requires status in was.responses && Success(status)
    ensures status in now.responses
    ensures var o, n := ReplySchema(was.responses[status]), ReplySchema(now.responses[status]);
      && o.Some? && n.Some? && Readable(os, o.value, ns, n.value, names, 0)
      && p.mime == JSON && Takes(ns, now.responses[status], p, matches) && KnownPayload(ns, now.responses[status], p)
      ==> Shaped(os, o.value, p.value, names)
  {
    hide CompareOperation, Parameters, Compare, Valid, Declared, Readable, Shaped, Find, Told, Lists;
    OperationSplits(os, wasItem, was, ns, nowItem, now, stack);
    assert ReplyFindings(os, was.responses, ns, now.responses, status, stack) == {};
    var o, n := ReplySchema(was.responses[status]), ReplySchema(now.responses[status]);
    if && o.Some? && n.Some? && Readable(os, o.value, ns, n.value, names, 0)
       && p.mime == JSON && Takes(ns, now.responses[status], p, matches) && KnownPayload(ns, now.responses[status], p)
    {
      ResponseSound(os, o.value, ns, n.value, "response " + status, names, 0, stack, p.value, matches);
    }
  }

  /** A reply that no longer says anything about JSON is not reported, whatever it promised before. */
  lemma SilentReplyEscapes(os: Spec, was: map<string, Content>, ns: Spec, now: map<string, Content>, status: string, stack: nat,
                           p: Payload, matches: (string, string) -> bool)
    requires status in was && status in now && ReplySchema(now[status]).None?
    ensures ReplyFindings(os, was, ns, now, status, stack) == {}
    ensures p.mime == JSON ==> (Takes(ns, now[status], p, matches) <==> Lists(now[status], JSON))
  {
    hide Find, Lists;
  }

  /** A release without a reported break still serves every request to every operation of the old one. */
  lemma NoBreaksNoSurprises(was: Document, now: Document, stack: nat, path: string, verb: string, r: Request,
                            matches: (string, string) -> bool)
    requires CompareSpecs(was, now, stack) == {}
    requires path in was.paths && verb in was.paths[path].ops && IsMethod(verb)
    requires Accepts(was.schemas, was.paths[path], was.paths[path].ops[verb], r, matches)
    requires Known(was.schemas, was.paths[path], was.paths[path].ops[verb], r)
    ensures Survives(now, path, verb)
    ensures ComparableRequests(was.schemas, was.paths[path], was.paths[path].ops[verb],
                               now.schemas, now.paths[path], now.paths[path].ops[verb], stack)
      ==> Accepts(now.schemas, now.paths[path], now.paths[path].ops[verb], r, matches)
  {
    hide CompareSpecs, CompareOperation, Accepts, Known, ComparableRequests;
    SpecsSplit(was, now, stack);
    assert OperationBreaks(was, now, path, verb, stack) == {};
    assert Survives(now, path, verb);
    var o, n := was.paths[path].ops[verb], now.paths[path].ops[verb];
    if ComparableRequests(was.schemas, was.paths[path], o, now.schemas, now.paths[path], n, stack) {
      RequestsStay(was.schemas, was.paths[path], o, now.schemas, now.paths[path], n, stack, r, matches);
    }
  }

  // ---------------------------------------------------------------- a release compared with itself

  ghost predicate RegularTold(spec: Spec, s: Option<Schema>, request: bool, stack: nat) {
    s.Some? ==> Regular(spec, s.value, request, 0, stack)
  }

  ghost predicate RegularOperation(spec: Spec, item: PathItem, op: Operation, stack: nat) {
    && (forall k :: k in Parameters(item, op) ==> Regular(spec, SchemaOf(Parameters(item, op)[k]), true, 0, stack))
    && RegularTold(spec, BodySchema(op.body.content), true, stack)
    && (forall status :: status in op.responses && Success(status) ==>
          RegularTold(spec, ReplySchema(op.responses[status]), false, stack))
  }

  lemma ToldSelf(spec: Spec, s: Option<Schema>, where: string, request: bool, stack: nat)
    ensures CompareTold(spec, s, spec, s, where, request, stack) == {} <==> RegularTold(spec, s, request, stack)
  {
    hide Compare, Regular;
    if s.Some? { SelfCompare(spec, s.value, where, request, 0, stack); }
  }

  lemma OperationSelf(spec: Spec, item: PathItem, op: Operation, stack: nat)
    ensures CompareOperation(spec, item, op, spec, item, op, stack) == {} <==> RegularOperation(spec, item, op, stack)
  {
    hide CompareOperation, Parameters, Compare, Regular, BodySchema, ReplySchema, CompareTold, RegularTold, Success, SchemaOf;
    OperationSplits(spec, item, op, spec, item, op, stack);
    var ps := Parameters(item, op);
    forall k | k in ps
      ensures ParamFindings(spec, ps, spec, ps, k, stack) == {} <==> Regular(spec, SchemaOf(ps[k]), true, 0, stack)
    {
      SelfCompare(spec, SchemaOf(ps[k]), k.0 + " " + k.1, true, 0, stack);
    }
    ToldSelf(spec, BodySchema(op.body.content), "body", true, stack);
    forall status | status in op.responses && Success(status)
      ensures ReplyFindings(spec, op.responses, spec, op.responses, status, stack) == {}
        <==> RegularTold(spec, ReplySchema(op.responses[status]), false, stack)
    {
      ToldSelf(spec, ReplySchema(op.responses[status]), "response " + status, false, stack);
    }
  }

  /** A release compared with itself is clean exactly when all its operations are regular. */
  lemma {:induction false} SpecSelf(d: Document, stack: nat)
    ensures CompareSpecs(d, d, stack) == {} <==>
      forall path, verb :: path in d.paths && verb in d.paths[path].ops && IsMethod(verb) ==>
        RegularOperation(d.schemas, d.paths[path], d.paths[path].ops[verb], stack)
  {
    hide CompareSpecs, CompareOperation, RegularOperation, IsMethod;
    SpecsSplit(d, d, stack);
    forall path, verb | path in d.paths && verb in d.paths[path].ops
      ensures OperationBreaks(d, d, path, verb, stack) == {}
        <==> RegularOperation(d.schemas, d.paths[path], d.paths[path].ops[verb], stack)
    {
      OperationSelf(d.schemas, d.paths[path], d.paths[path].ops[verb], stack);
    }
  }

  // ---------------------------------------------------------------- additions

  ghost predicate GrownTold(os: Spec, was: Option<Schema>, ns: Spec, now: Option<Schema>, request: bool, stack: nat) {
    was.Some? && now.Some? ==> GrownSchema(os, was.value, ns, now.value, request, 0, stack)
  }

  /** More optional parameters, more responses, and more properties at every level of every schema. */
  ghost predicate Grows(os: Spec, wasItem: PathItem, was: Operation, ns: Spec, nowItem: PathItem, now: Operation, stack: nat) {
    var op, np := Parameters(wasItem, was), Parameters(nowItem, now);
    && (forall k :: k in np && np[k].required ==> k in op && op[k].required)
    && (forall k :: k in np && k in op ==> GrownSchema(os, SchemaOf(op[k]), ns, SchemaOf(np[k]), true, 0, stack))
    && (now.body.required ==> was.body.required)
    && GrownTold(os, BodySchema(was.body.content), ns, BodySchema(now.body.content), true, stack)
    && (forall status :: status in was.responses ==>
          && status in now.responses
          && GrownTold(os, ReplySchema(was.responses[status]), ns, ReplySchema(now.responses[status]), false, stack))
  }

  /** `now` is `was` with additions only: paths, operations, and growing operations on the paths that were there. */
  ghost predicate Extends(now: Document, was: Document, stack: nat) {
    forall path, verb :: path in was.paths && verb in was.paths[path].ops && IsMethod(verb) ==>
      && Survives(now, path, verb)
      && Grows(was.schemas, was.paths[path], was.paths[path].ops[verb], now.schemas, now.paths[path], now.paths[path].ops[verb], stack)
  }

  lemma ToldGrows(os: Spec, was: Option<Schema>, ns: Spec, now: Option<Schema>, where: string, request: bool, stack: nat)
    requires GrownTold(os, was, ns, now, request, stack)
    ensures CompareTold(os, was, ns, now, where, request, stack) <= CompareTold(os, was, os, was, where, request, stack)
  {
    hide Compare, GrownSchema;
    if was.Some? && now.Some? { GrowthAddsNothing(os, was.value, ns, now.value, where, request, 0, stack); }
  }

  lemma ParamsGrow(os: Spec, op: map<Key, Param>, ns: Spec, np: map<Key, Param>, stack: nat)
    requires forall k :: k in np && np[k].required ==> k in op && op[k].required
    requires forall k :: k in np && k in op ==> GrownSchema(os, SchemaOf(op[k]), ns, SchemaOf(np[k]), true, 0, stack)
    ensures ParamsFindings(os, op, ns, np, stack) <= ParamsFindings(os, op, os, op, stack)
  {
    hide Compare, GrownSchema, SchemaOf;
    forall f | f in ParamsFindings(os, op, ns, np, stack) ensures f in ParamsFindings(os, op, os, op, stack) {
      var k :| k in np && f in ParamFindings(os, op, ns, np, k, stack);
      assert k in op;
      GrowthAddsNothing(os, SchemaOf(op[k]), ns, SchemaOf(np[k]), k.0 + " " + k.1, true, 0, stack);
      assert f in ParamFindings(os, op, os, op, k, stack);
    }
  }

  lemma RepliesGrow(os: Spec, was: map<string, Content>, ns: Spec, now: map<string, Content>, stack: nat)
    requires forall status :: status in was ==>
      status in now && GrownTold(os, ReplySchema(was[status]), ns, ReplySchema(now[status]), false, stack)
    ensures RepliesFindings(os, was, ns, now, stack) <= RepliesFindings(os, was, os, was, stack)
  {
    hide CompareTold, GrownTold, ReplySchema, Success;
    forall f | f in RepliesFindings(os, was, ns, now, stack) ensures f in RepliesFindings(os, was, os, was, stack) {
      var s :| s in was && Success(s) && f in ReplyFindings(os, was, ns, now, s, stack);
      ToldGrows(os, ReplySchema(was[s]), ns, ReplySchema(now[s]), "response " + s, false, stack);
      assert f in ReplyFindings(os, was, os, was, s, stack);
    }
  }

  lemma OperationGrows(os: Spec, wasItem: PathItem, was: Operation, ns: Spec, nowItem: PathItem, now: Operation, stack: nat)
    requires Grows(os, wasItem, was, ns, nowItem, now, stack)
    ensures CompareOperation(os, wasItem, was, ns, nowItem, now, stack) <= CompareOperation(os, wasItem, was, os, wasItem, was, stack)
  {
    hide Parameters, GrownSchema, GrownTold, CompareTold, ParamsFindings, RepliesFindings, SchemaOf, BodySchema, ReplySchema;
    ParamsGrow(os, Parameters(wasItem, was), ns, Parameters(nowItem, now), stack);
    ToldGrows(os, BodySchema(was.body.content), ns, BodySchema(now.body.content), "body", true, stack);
    RepliesGrow(os, was.responses, ns, now.responses, stack);
  }

  /**
   * Additions are never a break: paths, operations, optional parameters, documented responses, and properties at every level
   * report nothing that the old release does not report against itself.
   */
  lemma AdditionsAreNoBreaks(was: Document, now: Document, stack: nat)
    requires Extends(now, was, stack)
    ensures CompareSpecs(was, now, stack) <= CompareSpecs(was, was, stack)
  {
    hide CompareOperation, Grows, IsMethod;
    forall b | b in CompareSpecs(was, now, stack) ensures b in CompareSpecs(was, was, stack) {
      assert b.finding in OperationBreaks(was, now, b.path, b.verb, stack);
      OperationGrows(was.schemas, was.paths[b.path], was.paths[b.path].ops[b.verb],
                     now.schemas, now.paths[b.path], now.paths[b.path].ops[b.verb], stack);
      assert b.finding in OperationBreaks(was, was, b.path, b.verb, stack);
    }
  }

  /** `now` has everything `was` has, unchanged, and maybe more paths, methods and responses. */
  ghost predicate Contains(now: Document, was: Document) {
    && now.schemas == was.schemas
    && forall path :: path in was.paths ==>
      && path in now.paths && now.paths[path].params == was.paths[path].params
      && forall verb :: verb in was.paths[path].ops ==>
        && verb in now.paths[path].ops
        && Keeps(now.paths[path].ops[verb], was.paths[path].ops[verb])
  }

  ghost predicate Keeps(now: Operation, was: Operation) {
    && now.params == was.params && now.body == was.body
    && forall status :: status in was.responses ==> status in now.responses && now.responses[status] == was.responses[status]
  }

  lemma KeptOperation(spec: Spec, wasItem: PathItem, was: Operation, nowItem: PathItem, now: Operation, stack: nat)
    requires nowItem.params == wasItem.params && Keeps(now, was)
    ensures CompareOperation(spec, wasItem, was, spec, nowItem, now, stack) == CompareOperation(spec, wasItem, was, spec, wasItem, was, stack)
  {
    hide CompareTold, ParamsFindings, BodyFindings;
    assert Parameters(nowItem, now) == Parameters(wasItem, was);
    forall s | s in was.responses
      ensures ReplyFindings(spec, was.responses, spec, now.responses, s, stack) == ReplyFindings(spec, was.responses, spec, was.responses, s, stack)
    {
    }
  }

  /** Adding operations and documented responses and changing nothing else reports exactly what the old release does against itself. */
  lemma AddedPathsChangeNothing(was: Document, now: Document, stack: nat)
    requires Contains(now, was)
    ensures CompareSpecs(was, now, stack) == CompareSpecs(was, was, stack)
  {
    hide CompareOperation, Keeps;
    forall path, verb | path in was.paths && verb in was.paths[path].ops
      ensures OperationBreaks(was, now, path, verb, stack) == OperationBreaks(was, was, path, verb, stack)
    {
      KeptOperation(was.schemas, was.paths[path], was.paths[path].ops[verb], now.paths[path], now.paths[path].ops[verb], stack);
    }
  }

  // ---------------------------------------------------------------- three releases

  ghost predicate BridgesTold(os: Spec, o: Option<Schema>, ms: Spec, m: Option<Schema>, ns: Spec, n: Option<Schema>, request: bool, stack: nat) {
    o.Some? && n.Some? ==> m.Some? && Bridges(os, o.value, ms, m.value, ns, n.value, request, 0, stack)
  }

  /** The middle release keeps every parameter, body and reply that the outer two share. */
  ghost predicate BridgesOperation(
      os: Spec, oi: PathItem, o: Operation, ms: Spec, mi: PathItem, m: Operation, ns: Spec, ni: PathItem, n: Operation, stack: nat)
  {
    var op, mp, np := Parameters(oi, o), Parameters(mi, m), Parameters(ni, n);
    && (forall k :: k in op && k in np ==> k in mp && Bridges(os, SchemaOf(op[k]), ms, SchemaOf(mp[k]), ns, SchemaOf(np[k]), true, 0, stack))
    && BridgesTold(os, BodySchema(o.body.content), ms, BodySchema(m.body.content), ns, BodySchema(n.body.content), true, stack)
    && (forall status :: status in o.responses && status in m.responses && status in n.responses ==>
          BridgesTold(os, ReplySchema(o.responses[status]), ms, ReplySchema(m.responses[status]), ns, ReplySchema(n.responses[status]), false, stack))
  }

  lemma ToldComposes(os: Spec, o: Option<Schema>, ms: Spec, m: Option<Schema>, ns: Spec, n: Option<Schema>, where: string, request: bool, stack: nat)
    requires BridgesTold(os, o, ms, m, ns, n, request, stack)
    requires CompareTold(os, o, ms, m, where, request, stack) == {} && CompareTold(ms, m, ns, n, where, request, stack) == {}
    ensures CompareTold(os, o, ns, n, where, request, stack) == {}
  {
    hide Compare, Bridges;
    if o.Some? && n.Some? { CleanComposes(os, o.value, ms, m.value, ns, n.value, where, request, 0, stack); }
  }

  lemma ParamComposes(os: Spec, op: map<Key, Param>, ms: Spec, mp: map<Key, Param>, ns: Spec, np: map<Key, Param>, k: Key, stack: nat)
    requires k in np
    requires k in op ==> k in mp && Bridges(os, SchemaOf(op[k]), ms, SchemaOf(mp[k]), ns, SchemaOf(np[k]), true, 0, stack)
    requires ParamFindings(ms, mp, ns, np, k, stack) == {}
    requires k in mp ==> ParamFindings(os, op, ms, mp, k, stack) == {}
    ensures ParamFindings(os, op, ns, np, k, stack) == {}
  {
    hide Compare, Bridges, SchemaOf;
    if k in op {
      CleanComposes(os, SchemaOf(op[k]), ms, SchemaOf(mp[k]), ns, SchemaOf(np[k]), k.0 + " " + k.1, true, 0, stack);
    }
  }

  lemma OperationComposes(
      os: Spec, oi: PathItem, o: Operation, ms: Spec, mi: PathItem, m: Operation, ns: Spec, ni: PathItem, n: Operation, stack: nat)
    requires BridgesOperation(os, oi, o, ms, mi, m, ns, ni, n, stack)
    requires CompareOperation(os, oi, o, ms, mi, m, stack) == {} && CompareOperation(ms, mi, m, ns, ni, n, stack) == {}
    ensures CompareOperation(os, oi, o, ns, ni, n, stack) == {}
  {
    hide CompareOperation, Parameters, Compare, Bridges, BodySchema, ReplySchema, CompareTold, BridgesTold, Success, SchemaOf, ParamFindings;
    OperationSplits(os, oi, o, ms, mi, m, stack);
    OperationSplits(ms, mi, m, ns, ni, n, stack);
    OperationSplits(os, oi, o, ns, ni, n, stack);
    var op, mp, np := Parameters(oi, o), Parameters(mi, m), Parameters(ni, n);
    forall k | k in np ensures ParamFindings(os, op, ns, np, k, stack) == {} {
      ParamComposes(os, op, ms, mp, ns, np, k, stack);
    }
    ToldComposes(os, BodySchema(o.body.content), ms, BodySchema(m.body.content), ns, BodySchema(n.body.content), "body", true, stack);
    forall status | status in o.responses && Success(status) ensures ReplyFindings(os, o.responses, ns, n.responses, status, stack) == {} {
      assert ReplyFindings(os, o.responses, ms, m.responses, status, stack) == {};
      assert ReplyFindings(ms, m.responses, ns, n.responses, status, stack) == {};
      ToldComposes(os, ReplySchema(o.responses[status]), ms, ReplySchema(m.responses[status]), ns, ReplySchema(n.responses[status]),
                   "response " + status, false, stack);
    }
  }

  /** Two clean upgrades in a row are one clean upgrade, when the middle release bridges the operations the outer two share. */
  lemma {:induction false} ReleasesCompose(o: Document, m: Document, n: Document, stack: nat)
    requires CompareSpecs(o, m, stack) == {} && CompareSpecs(m, n, stack) == {}
    requires forall path, verb ::
      (path in o.paths && verb in o.paths[path].ops && IsMethod(verb) && Survives(m, path, verb) && Survives(n, path, verb)) ==>
        BridgesOperation(o.schemas, o.paths[path], o.paths[path].ops[verb], m.schemas, m.paths[path], m.paths[path].ops[verb],
                         n.schemas, n.paths[path], n.paths[path].ops[verb], stack)
    ensures CompareSpecs(o, n, stack) == {}
  {
    hide CompareSpecs, CompareOperation, BridgesOperation, IsMethod;
    SpecsSplit(o, m, stack);
    SpecsSplit(m, n, stack);
    SpecsSplit(o, n, stack);
    forall path, verb | path in o.paths && verb in o.paths[path].ops && IsMethod(verb)
      ensures OperationBreaks(o, n, path, verb, stack) == {}
    {
      assert OperationBreaks(o, m, path, verb, stack) == {};
      assert OperationBreaks(m, n, path, verb, stack) == {};
      OperationComposes(o.schemas, o.paths[path], o.paths[path].ops[verb], m.schemas, m.paths[path], m.paths[path].ops[verb],
                        n.schemas, n.paths[path], n.paths[path].ops[verb], stack);
    }
  }

  // ---------------------------------------------------------------- the program

  const UPPERS := ["maximum", "maxLength", "maxItems", "exclusiveMaximum"]
  const LOWERS := ["minimum", "minLength", "minItems", "exclusiveMinimum"]

  lemma KeysListed(key: string)
    ensures IsUpper(key) <==> key in UPPERS
    ensures IsLower(key) <==> key in LOWERS
  {
    assert UPPERS[0] == "maximum" && UPPERS[1] == "maxLength" && UPPERS[2] == "maxItems" && UPPERS[3] == "exclusiveMaximum";
    assert LOWERS[0] == "minimum" && LOWERS[1] == "minLength" && LOWERS[2] == "minItems" && LOWERS[3] == "exclusiveMinimum";
  }

  /** The two loops of `bounds_change` over one list of keys. */
  method StricterKeys(o: map<string, real>, n: map<string, real>, keys: seq<string>, upper: bool, where: string) returns (out: set<Finding>)
    requires forall k :: k in keys ==> if upper then IsUpper(k) && !IsLower(k) else IsLower(k) && !IsUpper(k)
    ensures forall f :: f in out <==> exists k :: k in keys && Stricter(o, n, k) && f == Narrowed(where, k)
  {
    out := {};
    for i := 0 to |keys|
      invariant forall f :: f in out <==> exists k :: k in keys[..i] && Stricter(o, n, k) && f == Narrowed(where, k)
    {
      var key := keys[i];
      assert keys[..i + 1] == keys[..i] + [key];
      if key in n && (key !in o || (if upper then n[key] < o[key] else n[key] > o[key])) {
        out := out + {Narrowed(where, key)};
      }
    }
    assert keys[..|keys|] == keys;
  }

  method Bounds(o: Schema, n: Schema, where: string) returns (out: set<Finding>)
    requires o.Node? && n.Node?
    ensures out == BoundsChange(o, n, where)
  {
    forall k ensures (IsUpper(k) <==> k in UPPERS) && (IsLower(k) <==> k in LOWERS) { KeysListed(k); }
    hide IsUpper, IsLower, PyIn;
    var uppers := StricterKeys(o.bounds, n.bounds, UPPERS, true, where);
    var lowers := StricterKeys(o.bounds, n.bounds, LOWERS, false, where);
    out := uppers + lowers;
    ghost var narrowed := set key | key in n.bounds && Stricter(o.bounds, n.bounds, key) :: Narrowed(where, key);
    assert out == narrowed by {
      forall f ensures f in out <==> f in narrowed {
        if f in narrowed {
          var k :| k in n.bounds && Stricter(o.bounds, n.bounds, k) && f == Narrowed(where, k);
          assert k in UPPERS || k in LOWERS;
        }
      }
    }
    if o.enum.Some? && n.enum.Some? {
      var gone := false;
      for i := 0 to |o.enum.value|
        invariant gone <==> exists j :: 0 <= j < i && !PyIn(o.enum.value[j], n.enum.value)
      {
        if !PyIn(o.enum.value[i], n.enum.value) { gone := true; }
      }
      if gone { out := out + {EnumLost(where)}; }
    } else if n.enum.Some? {
      out := out + {EnumAdded(where)};
    }
  }

  /** `compare_schema`, adding to `findings`. */
  method CompareSchema(os: Spec, was: Schema, ns: Spec, now: Schema, where: string, request: bool, findings: set<Finding>, depth: nat, stack: nat)
    returns (out: set<Finding>)
    ensures out == findings + Compare(os, was, ns, now, where, request, depth, stack)
    decreases 7 - depth, 1
  {
    hide TypeChange, BoundsChange, RequiredChange, TypeOf, Resolve, CompareProps;
    var ro := ResolveLoop(os, was);
    var rn := ResolveLoop(ns, now);
    var o, n := View(ro), View(rn);
    out := findings;
    if depth > 6 || o == BLANK || n == BLANK { return; }
    var changed := TypeChange(os, ro, ns, rn, where, request, stack);
    if changed != {} { return out + changed; }
    if request {
      var narrowed := Bounds(o, n, where);
      out := out + narrowed;
    }
    out := out + RequiredChange(o, n, where, request);
    out := ComparePropsLoop(os, o, ns, n, where, request, out, depth, stack);
    if o.items.Some? && n.items.Some? {
      out := CompareSchema(os, o.items.value, ns, n.items.value, where + "[]", request, out, depth + 1, stack);
    }
  }

  method ComparePropsLoop(os: Spec, o: Schema, ns: Spec, n: Schema, where: string, request: bool, findings: set<Finding>, depth: nat, stack: nat)
    returns (out: set<Finding>)
    requires o.Node? && n.Node? && depth <= 6
    ensures out == findings + CompareProps(os, o, ns, n, where, request, depth, stack)
    decreases 7 - depth, 0
  {
    hide Compare;
    out := findings;
    var names := o.props.Keys;
    while names != {}
      invariant names <= o.props.Keys
      invariant forall f :: f in out <==> (f in findings || exists name :: (name in o.props && name !in names && name in n.props
        && f in CompareProp(os, o, ns, n, name, where, request, depth, stack)))
      decreases names
    {
      var name :| name in names;
      names := names - {name};
      ghost var before := out;
      if name in n.props {
        out := CompareSchema(os, o.props[name], ns, n.props[name], where + "." + name, request, out, depth + 1, stack);
        assert out == before + CompareProp(os, o, ns, n, name, where, request, depth, stack);
      }
    }
  }

  method CompareWhenTold(os: Spec, was: Option<Schema>, ns: Spec, now: Option<Schema>, where: string, request: bool, findings: set<Finding>, stack: nat)
    returns (out: set<Finding>)
    ensures out == findings + CompareTold(os, was, ns, now, where, request, stack)
  {
    out := findings;
    if was.Some? && now.Some? { out := CompareSchema(os, was.value, ns, now.value, where, request, out, 0, stack); }
  }

  method CompareParams(os: Spec, op: map<Key, Param>, ns: Spec, np: map<Key, Param>, stack: nat) returns (out: set<Finding>)
    ensures out == ParamsFindings(os, op, ns, np, stack)
  {
    hide Compare;
    out := {};
    var keys := np.Keys;
    while keys != {}
      invariant keys <= np.Keys
      invariant forall f :: f in out <==> exists k :: k in np && k !in keys && f in ParamFindings(os, op, ns, np, k, stack)
      decreases keys
    {
      var k :| k in keys;
      keys := keys - {k};
      ghost var before := out;
      var where := k.0 + " " + k.1;
      if np[k].required && (k !in op || !op[k].required) { out := out + {NewRequiredParameter(where)}; }
      if k in op { out := CompareSchema(os, SchemaOf(op[k]), ns, SchemaOf(np[k]), where, true, out, 0, stack); }
      assert out == before + ParamFindings(os, op, ns, np, k, stack);
    }
  }

  method CompareReplies(os: Spec, was: map<string, Content>, ns: Spec, now: map<string, Content>, findings: set<Finding>, stack: nat)
    returns (out: set<Finding>)
    ensures out == findings + RepliesFindings(os, was, ns, now, stack)
  {
    hide CompareTold, Success, ReplySchema;
    out := findings;
    var statuses := was.Keys;
    while statuses != {}
      invariant statuses <= was.Keys
      invariant forall f :: f in out <==> (f in findings || exists s :: (s in was && s !in statuses && Success(s)
        && f in ReplyFindings(os, was, ns, now, s, stack)))
      decreases statuses
    {
      var s :| s in statuses;
      statuses := statuses - {s};
      ghost var before := out;
      if Success(s) {
        if s !in now {
          out := out + {RemovedResponse(s)};
        } else {
          out := CompareWhenTold(os, ReplySchema(was[s]), ns, ReplySchema(now[s]), "response " + s, false, out, stack);
        }
        assert out == before + ReplyFindings(os, was, ns, now, s, stack);
      }
    }
  }

  /** The part of `compare_specs` for one operation both releases have. */
  method CompareOperations(os: Spec, wasItem: PathItem, was: Operation, ns: Spec, nowItem: PathItem, now: Operation, stack: nat)
    returns (out: set<Finding>)
    ensures out == CompareOperation(os, wasItem, was, ns, nowItem, now, stack)
  {
    hide Parameters, CompareTold, BodySchema, ParamsFindings, RepliesFindings;
    out := CompareParams(os, Parameters(wasItem, was), ns, Parameters(nowItem, now), stack);
    if now.body.required && !was.body.required { out := out + {NewRequiredParameter("body")}; }
    out := CompareWhenTold(os, BodySchema(was.body.content), ns, BodySchema(now.body.content), "body", true, out, stack);
    out := CompareReplies(os, was.responses, ns, now.responses, out, stack);
  }

  const METHODS := ["get", "put", "post", "delete", "patch", "head", "options"]

  lemma MethodsListed(verb: string)
    ensures IsMethod(verb) <==> verb in METHODS
  {
    assert METHODS[0] == "get" && METHODS[1] == "put" && METHODS[2] == "post" && METHODS[3] == "delete";
    assert METHODS[4] == "patch" && METHODS[5] == "head" && METHODS[6] == "options";
  }

  /** `compare_specs` */
  method CompareDocuments(was: Document, now: Document, stack: nat) returns (out: set<Break>)
    ensures out == CompareSpecs(was, now, stack)
  {
    hide OperationBreaks, IsMethod;
    forall verb ensures IsMethod(verb) <==> verb in METHODS { MethodsListed(verb); }
    out := {};
    var paths := was.paths.Keys;
    while paths != {}
      invariant paths <= was.paths.Keys
      invariant forall b :: b in out <==> (b.path in was.paths && b.path !in paths && b.verb in METHODS
        && b.verb in was.paths[b.path].ops && b.finding in OperationBreaks(was, now, b.path, b.verb, stack))
      decreases paths
    {
      var path :| path in paths;
      paths := paths - {path};
      ghost var before := out;
      for i := 0 to |METHODS|
        invariant forall b :: b in out <==> (b in before || (b.path == path && b.verb in METHODS[..i]
          && b.verb in was.paths[path].ops && b.finding in OperationBreaks(was, now, path, b.verb, stack)))
      {
        var verb := METHODS[i];
        assert METHODS[..i + 1] == METHODS[..i] + [verb];
        if verb in was.paths[path].ops {
          var found := OperationFindings(was, now, path, verb, stack);
          out := out + set f | f in found :: Break(verb, path, f);
        }
      }
      assert METHODS[..|METHODS|] == METHODS;
    }
  }

  method OperationFindings(was: Document, now: Document, path: string, verb: string, stack: nat) returns (out: set<Finding>)
    requires path in was.paths && verb in was.paths[path].ops
    ensures out == OperationBreaks(was, now, path, verb, stack)
  {
    hide CompareOperation;
    if path !in now.paths || verb !in now.paths[path].ops {
      out := {RemovedOperation};
    } else {
      out := CompareOperations(was.schemas, was.paths[path], was.paths[path].ops[verb],
                               now.schemas, now.paths[path], now.paths[path].ops[verb], stack);
    }
  }
}
