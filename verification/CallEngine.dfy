/** One call of the SDK against a network that loses things and a server that keeps the first answer of every key. */
module CallEngine {
  import opened Text
  import opened RetryPolicy
  import Idempotency

  type Key = string

  // ---------------------------------------------------------------- the server

  /** What the route does when it runs: it acts and answers with a 2xx status, or it fails and is rolled back. */
  datatype Outcome = Acts(status: int) | Fails(status: int, title: string)

  predicate Plausible(o: Outcome) {
    match o
    case Acts(status) => 200 <= status < 300
    case Fails(status, _) => status >= 400
  }

  datatype Answer = Answer(status: int, title: string)

  /** `effects` counts how often each key's command took effect; `plain` counts the requests without a key that did. */
  datatype Server = Server(stored: map<Key, int>, effects: multiset<Key>, plain: nat) {
    /** Every key with a stored answer took effect exactly once, every other key never; what is stored are successes. */
    ghost predicate Consistent() {
      && (forall k :: effects[k] == (if k in stored then 1 else 0))
      && (forall k :: k in stored ==> 200 <= stored[k] < 300)
    }

    /** One request reaches the server: a stored answer is replayed, otherwise the route runs and a 2xx answer is stored. */
    function Deliver(key: Option<Key>, o: Outcome): (r: (Server, Answer)) {
      if key.None? then
        if o.Acts? then (this.(plain := plain + 1), Answer(o.status, "")) else (this, Answer(o.status, o.title))
      else if key.value in stored then (this, Answer(stored[key.value], ""))
      else if o.Acts? then
        (Server(stored[key.value := o.status], effects + multiset{key.value}, plain), Answer(o.status, ""))
      else (this, Answer(o.status, o.title))
    }

    function DeliverAll(ds: seq<(Key, Outcome)>): Server
      decreases |ds|
    {
      if ds == [] then this else Deliver(Some(ds[0].0), ds[0].1).0.DeliverAll(ds[1..])
    }
  }

  /** A delivery keeps the books straight, undoes nothing, and reports success only for what took effect. */
  lemma DeliverKeeps(s: Server, key: Option<Key>, o: Outcome)
    requires s.Consistent() && Plausible(o)
    ensures var (t, a) := s.Deliver(key, o);
      && t.Consistent() && a.status >= 200
      && (a.status < 400 && key.Some? ==> key.value in t.stored)
      && (forall k :: k in s.stored ==> k in t.stored && t.stored[k] == s.stored[k])
      && (forall k :: k in t.stored ==> k in s.stored || Some(k) == key)
      && t.plain <= s.plain + 1 && (a.status >= 400 || key.Some? ==> t.plain == s.plain)
  {
  }

  lemma {:induction false} DeliveriesKeep(s: Server, ds: seq<(Key, Outcome)>)
    requires s.Consistent() && forall i :: 0 <= i < |ds| ==> Plausible(ds[i].1)
    ensures var t := s.DeliverAll(ds);
      && t.Consistent() && t.plain == s.plain
      && (forall k :: k in s.stored ==> k in t.stored && t.stored[k] == s.stored[k])
      && (forall k :: k in t.stored ==> k in s.stored || exists i :: 0 <= i < |ds| && ds[i].0 == k)
    decreases |ds|
  {
    if ds != [] {
      assert Plausible(ds[0].1);
      DeliverKeeps(s, Some(ds[0].0), ds[0].1);
      DeliveriesKeep(s.Deliver(Some(ds[0].0), ds[0].1).0, ds[1..]);
      forall k | k in s.DeliverAll(ds).stored && k !in s.stored ensures exists i :: 0 <= i < |ds| && ds[i].0 == k {
        if k != ds[0].0 {
          var i :| 0 <= i < |ds[1..]| && ds[1..][i].0 == k;
          assert ds[i + 1].0 == k;
        }
      }
    }
  }

  /** However often and with whatever outcomes keys are delivered, each command takes effect at most once, and all its answers agree. */
  lemma AtMostOnce(s: Server, ds: seq<(Key, Outcome)>, more: seq<(Key, Outcome)>, k: Key, o: Outcome)
    requires s.Consistent() && Plausible(o)
    requires (forall i :: 0 <= i < |ds| ==> Plausible(ds[i].1)) && forall i :: 0 <= i < |more| ==> Plausible(more[i].1)
    ensures var t := s.DeliverAll(ds); var u := t.DeliverAll(more);
      && t.effects[k] <= u.effects[k] <= 1
      && (k in t.stored ==> u.Deliver(Some(k), o) == (u, t.Deliver(Some(k), o).1))
  {
    DeliveriesKeep(s, ds);
    DeliveriesKeep(s.DeliverAll(ds), more);
  }

  // ---------------------------------------------------------------- a delivery is a run of the idempotency record

  /** The record of one key between attempts tells what the server has for it. */
  ghost predicate Mirrors(s: Server, k: Key, hash: string, x: Idempotency.System) {
    && x.effects == s.effects[k]
    && (if k in s.stored then x.row.Some? && x.row.value.hash == hash && x.row.value.done == Some(s.stored[k]) else x.row.None?)
  }

  predicate SameAnswer(a: Answer, r: Idempotency.Reply) {
    match r
    case Success(status) => a.status == status
    case Replayed(status) => a.status == status
    case Failure => a.status >= 400
    case _ => false
  }

  /**
   * A delivery with a key is a calm run of the record: one attempt on its own, from its arrival to its answer, with the same
   * effect, the same stored answer and the same reply.
   */
  lemma DeliverIsARun(s: Server, k: Key, o: Outcome, hash: string, x: Idempotency.System)
      returns (n: nat, xs: seq<Idempotency.Action>, y: Idempotency.System)
    requires Plausible(o) && Mirrors(s, k, hash, x)
    ensures Idempotency.Leads(x, xs, y) && Mirrors(s.Deliver(Some(k), o).0, k, hash, y)
    ensures n in y.attempts && y.attempts[n].phase.Over? && y.attempts[n].phase.reply.Some?
    ensures SameAnswer(s.Deliver(Some(k), o).1, y.attempts[n].phase.reply.value)
  {
    hide Idempotency.Leads;
    if k in s.stored {
      n, xs, y := Idempotency.RepeatsAlone(x, hash);
    } else if o.Acts? {
      n, xs, y := Idempotency.RunsAlone(x, hash, o.status);
    } else {
      n, xs, y := Idempotency.FailsAlone(x, hash);
    }
  }

  // ---------------------------------------------------------------- the network

  /** What becomes of one send: lost before the server, answered by the gateway alone, or delivered and then answered or not. */
  datatype Fate =
    | RequestLost
    | Gateway(answer: Answer)
    | Answered(run: Outcome)
    | AnswerLost(run: Outcome)
    | GatewayGaveUp(run: Outcome, status: int)

  /**
   * One moment of a schedule: deliveries of earlier or foreign requests that arrive first, the fate of the send, the
   * Retry-After it comes back with, the random part of the wait after it, and whether the context is done by then.
   */
  datatype Event = Event(late: seq<(Key, Outcome)>, fate: Fate, retryAfter: Duration, random: nat -> nat, cancelled: bool)

  ghost predicate PlausibleEvent(e: Event) {
    && (forall i :: 0 <= i < |e.late| ==> Plausible(e.late[i].1))
    && (match e.fate
        case RequestLost => true
        case Gateway(a) => a.status >= 400
        case Answered(o) => Plausible(o)
        case AnswerLost(o) => Plausible(o)
        case GatewayGaveUp(o, status) => Plausible(o) && (status == 502 || status == 504))
    && (forall n: nat :: n > 0 ==> e.random(n) < n)
  }

  datatype Sent = Sent(key: Option<Key>, token: string)

  /** What `c.http.Do` gives back: an answer or a transport error. */
  datatype Reply = Got(answer: Answer) | Broken

  class World {
    var server: Server
    var sent: seq<Sent>
    var waited: nat
    const schedule: nat -> Event

    ghost predicate Valid()
      reads this
    {
      server.Consistent() && forall n :: PlausibleEvent(schedule(n))
    }

    constructor (schedule: nat -> Event)
      requires forall n :: PlausibleEvent(schedule(n))
      ensures Valid() && sent == [] && waited == 0 && server == Server(map[], multiset{}, 0) && this.schedule == schedule
    {
      server, sent, waited := Server(map[], multiset{}, 0), [], 0;
      this.schedule := schedule;
    }

    /** Sends one request; `n` is the number of the event that decides what happens. */
    method Send(key: Option<Key>, token: string) returns (reply: Reply, ghost n: nat)
      requires Valid()
      modifies this`server, this`sent
      ensures Valid() && n == old(|sent|) && sent == old(sent) + [Sent(key, token)]
      ensures forall k :: k in old(server).stored ==> k in server.stored
      ensures reply.Got? && reply.answer.status < 400 && key.Some? ==> key.value in server.stored
      ensures reply.Got? ==> reply.answer.status >= 200
      ensures server.plain <= old(server).plain + 1
      ensures reply.Got? && (reply.answer.status == 429 || reply.answer.status == 503) ==> server.plain == old(server).plain
    {
      hide Server.Deliver, Server.Consistent;
      n := |sent|;
      var e := schedule(|sent|);
      assert PlausibleEvent(e);
      sent := sent + [Sent(key, token)];
      DeliveriesKeep(server, e.late);
      server := server.DeliverAll(e.late);
      match e.fate
      case RequestLost => reply := Broken;
      case Gateway(a) => reply := Got(a);
      case Answered(o) =>
        DeliverKeeps(server, key, o);
        var (s, a) := server.Deliver(key, o);
        server, reply := s, Got(a);
      case AnswerLost(o) =>
        DeliverKeeps(server, key, o);
        server, reply := server.Deliver(key, o).0, Broken;
      case GatewayGaveUp(o, status) =>
        DeliverKeeps(server, key, o);
        server, reply := server.Deliver(key, o).0, Got(Answer(status, ""));
    }
  }

  // ---------------------------------------------------------------- roundTrip

  datatype Trip = Response(answer: Answer) | Failed | Cancelled

  /** The requests `sent` gained over `before` are `n` copies of `one`. */
  ghost predicate Gained(before: seq<Sent>, sent: seq<Sent>, one: Sent, n: nat) {
    && |sent| == |before| + n && sent[..|before|] == before
    && forall i :: |before| <= i < |sent| ==> sent[i] == one
  }

  lemma LimitSteps(p: Policy, attempt: int)
    ensures (attempt - 1) * Longest(p) + Longest(p) == attempt * Longest(p) && Longest(p) >= 0
  {
  }

  /**
   * Sends one request until it is answered for good, or the attempts run out. `safe` says it may be repeated when the server
   * may already have acted.
   */
  method RoundTrip(w: World, p: Policy, key: Option<Key>, token: string, safe: bool) returns (r: Trip)
    requires w.Valid()
    modifies w`server, w`sent, w`waited
    ensures w.Valid() && forall k :: k in old(w.server).stored ==> k in w.server.stored
    ensures exists n :: 1 <= n <= p.Attempts() && Gained(old(w.sent), w.sent, Sent(key, token), n)
    ensures w.waited <= old(w.waited) + (p.Attempts() - 1) * Longest(p)
    ensures r.Response? && r.answer.status < 400 && key.Some? ==> key.value in w.server.stored
    ensures r.Response? && (r.answer.status == 429 || r.answer.status == 503 || (safe && (r.answer.status == 502 || r.answer.status == 504)))
      ==> |w.sent| == |old(w.sent)| + p.Attempts()
    ensures r.Failed? && safe ==> |w.sent| == |old(w.sent)| + p.Attempts()
    ensures r.Response? ==> r.answer.status >= 200
    ensures !safe ==> w.server.plain <= old(w.server).plain + 1
  {
    hide Retryable, Longest;
    var attempts := p.Attempts();
    var attempt := 1;
    assert (attempt - 1) * Longest(p) == 0;
    while true
      invariant 1 <= attempt <= attempts && w.Valid()
      invariant forall k :: k in old(w.server).stored ==> k in w.server.stored
      invariant Gained(old(w.sent), w.sent, Sent(key, token), attempt - 1)
      invariant w.waited <= old(w.waited) + (attempt - 1) * Longest(p)
      invariant !safe ==> w.server.plain == old(w.server).plain
      decreases attempts - attempt
    {
      var event := w.schedule(|w.sent|);
      assert PlausibleEvent(event);
      var reply, n := w.Send(key, token);
      assert Gained(old(w.sent), w.sent, Sent(key, token), attempt);
      StepsBelow(p, attempt, attempts);
      var retryAfter: Duration := 0;
      match reply {
      case Got(answer) =>
        var (retry, ambiguous) := Retryable(answer.status);
        RetryableIs(answer.status);
        if !retry || (ambiguous && !safe) || attempt >= attempts { return Response(answer); }
        retryAfter := event.retryAfter;
      case Broken =>
        if event.cancelled { return Cancelled; }
        if !safe || attempt >= attempts { return Failed; }
      }
      if event.cancelled { return Cancelled; }
      var d := Wait(p, attempt, retryAfter, event.random);
      LimitSteps(p, attempt);
      w.waited := w.waited + Max(d, 0);
      attempt := attempt + 1;
    }
  }

  lemma StepsBelow(p: Policy, attempt: int, attempts: int)
    requires 1 <= attempt <= attempts
    ensures 0 <= (attempt - 1) * Longest(p) <= (attempts - 1) * Longest(p)
  {
    var a, b, l := attempt - 1, attempts - 1, Longest(p);
    assert b * l == a * l + (b - a) * l;
    assert (b - a) * l >= 0 && a * l >= 0;
  }

  lemma RetryableIs(status: int)
    ensures Retryable(status).0 <==> status == 429 || status == 502 || status == 503 || status == 504
    ensures Retryable(status).0 && !Retryable(status).1 <==> status == 429 || status == 503
  {
  }

  // ---------------------------------------------------------------- Do

  datatype Result = Ok(status: int) | ApiError(status: int, title: string) | Failure

  predicate ConcurrentModification(a: Answer) {
    a.status == 409 && a.title == "CONCURRENT_MODIFICATION"
  }

  predicate Mutating(verb: string) {
    verb != "GET" && verb != "HEAD"
  }

  /** The key a call is sent with: a POST without one gets `generated`. */
  function KeyOf(verb: string, given: Option<Key>, generated: Key): Option<Key> {
    if verb == "POST" && (given.None? || given == Some("")) then Some(generated) else given
  }

  /** What a call asks for: where, how, the key its caller chose, and the one generated for it. */
  datatype Call = Call(path: string, verb: string, given: Option<Key>, generated: Key) {
    function Key(): (k: Option<Key>)
      ensures verb == "POST" ==> k.Some?
    {
      KeyOf(verb, given, generated)
    }
  }

  /** The requests of one call: all with its key, all with one of its two tokens. */
  ghost predicate SentFor(before: seq<Sent>, sent: seq<Sent>, key: Option<Key>, tokens: set<string>) {
    && |before| <= |sent| && sent[..|before|] == before
    && forall i :: |before| <= i < |sent| ==> sent[i].key == key && sent[i].token in tokens
  }

  lemma SentMore(before: seq<Sent>, mid: seq<Sent>, sent: seq<Sent>, key: Option<Key>, tokens: set<string>, token: string, n: nat)
    requires SentFor(before, mid, key, tokens) && Gained(mid, sent, Sent(key, token), n) && token in tokens && n > 0
    ensures SentFor(before, sent, key, tokens) && sent[|sent| - 1] == Sent(key, token)
  {
    assert sent[..|before|] == sent[..|mid|][..|before|];
    forall i | |before| <= i < |sent| ensures sent[i].key == key && sent[i].token in tokens {
      if i < |mid| { assert sent[i] == sent[..|mid|][i] == mid[i]; }
    }
  }

  lemma ThreeTrips(p: Policy, trips: nat, n: nat)
    requires trips + 1 <= n
    ensures (p.Attempts() - 1) * Longest(p) >= 0
    ensures trips * p.Attempts() + p.Attempts() <= n * p.Attempts()
    ensures (trips + 1) * ((p.Attempts() - 1) * Longest(p)) == trips * ((p.Attempts() - 1) * Longest(p)) + (p.Attempts() - 1) * Longest(p)
    ensures trips * ((p.Attempts() - 1) * Longest(p)) + (p.Attempts() - 1) * Longest(p) <= n * ((p.Attempts() - 1) * Longest(p))
  {
    StepsBelow(p, 1, p.Attempts());
    Times(p.Attempts(), trips + 1, n);
    Times((p.Attempts() - 1) * Longest(p), trips + 1, n);
  }

  lemma Times(x: int, a: nat, b: nat)
    requires x >= 0 && a <= b
    ensures a * x <= b * x
    ensures a > 0 ==> (a - 1) * x + x == a * x
  {
    assert b * x == a * x + (b - a) * x;
  }

  /** How often one call may go through `roundTrip`: once, once more after a renewed token, once more after a lost write race. */
  function Trips(verb: string, bearer: string): nat {
    1 + (if bearer == "" then 1 else 0) + (if Mutating(verb) then 1 else 0)
  }

  /**
   * `Do`. `bearer` is the configured token, if any; else `first` is what the token source answers and `renew` what it answers
   * when a token was rejected.
   */
  method Do(w: World, p: Policy, c: Call, bearer: string, first: Option<string>, renew: string -> Option<string>) returns (r: Result)
    requires w.Valid()
    modifies w`server, w`sent, w`waited
    ensures w.Valid()
    ensures |w.sent| <= |old(w.sent)| + Trips(c.verb, bearer) * p.Attempts()
    ensures w.waited <= old(w.waited) + Trips(c.verb, bearer) * ((p.Attempts() - 1) * Longest(p))
    ensures var t0 := if bearer != "" then Some(bearer) else first;
      if t0.None? || !(|c.path| > 0 && c.path[0] == '/') then w.sent == old(w.sent) && r == Failure
      else SentFor(old(w.sent), w.sent, c.Key(), {t0.value} + (if renew(t0.value).Some? then {renew(t0.value).value} else {}))
    ensures c.Key().Some? ==> w.server.effects[c.Key().value] <= 1
    ensures r.Ok? && c.Key().Some? ==> w.server.effects[c.Key().value] == 1
    ensures r.Ok? ==> 200 <= r.status < 400
    ensures r.ApiError? && r.status == 401 && bearer == "" ==>
      && first.Some? && renew(first.value).Some? && |w.sent| > |old(w.sent)|
      && w.sent[|w.sent| - 1].token == renew(first.value).value
    ensures r.ApiError? && ConcurrentModification(Answer(r.status, r.title)) && Mutating(c.verb) ==> |w.sent| >= |old(w.sent)| + 2
    ensures r.ApiError? && (r.status == 429 || r.status == 502 || r.status == 503 || r.status == 504) ==> |w.sent| >= |old(w.sent)| + p.Attempts()
  {
    hide Retryable, Longest, Gained, SentFor, Trips, Server.Consistent, KeyOf;
    var key := c.Key();
    if key.Some? { EffectOnce(w.server, key.value); }
    var limit := Trips(c.verb, bearer);
    TripsAre(c.verb, bearer);
    ThreeTrips(p, 0, limit);
    assert w.sent[..|w.sent|] == w.sent;
    if |c.path| == 0 || c.path[0] != '/' { return Failure; }
    var t0 := if bearer != "" then Some(bearer) else first;
    if t0.None? { return Failure; }
    var token := t0.value;
    ghost var tokens := {token} + (if renew(token).Some? then {renew(token).value} else {});
    NothingSent(w.sent, key, tokens);
    var renewed, repeated := false, false;
    ghost var trips: nat := 0;
    while true
      invariant w.Valid() && trips == (if renewed then 1 else 0) + (if repeated then 1 else 0)
      invariant renewed ==> bearer == "" && first.Some? && renew(first.value) == Some(token)
      invariant !renewed ==> token == t0.value
      invariant repeated ==> Mutating(c.verb)
      invariant SentFor(old(w.sent), w.sent, key, tokens)
      invariant |old(w.sent)| + trips <= |w.sent| <= |old(w.sent)| + trips * p.Attempts()
      invariant w.waited <= old(w.waited) + trips * ((p.Attempts() - 1) * Longest(p))
      decreases 2 - trips
    {
      assert trips + 1 <= limit || renewed || repeated;
      ghost var mid := w.sent;
      var trip := RoundTrip(w, p, key, token, true);
      ghost var n :| 1 <= n <= p.Attempts() && Gained(mid, w.sent, Sent(key, token), n);
      SentMore(old(w.sent), mid, w.sent, key, tokens, token, n);
      GainedLength(mid, w.sent, Sent(key, token), n);
      ThreeTrips(p, trips, limit);
      if key.Some? { EffectOnce(w.server, key.value); }
      if !trip.Response? { return Failure; }
      var a := trip.answer;
      if a.status == 401 && !renewed && bearer == "" {
        renewed := true;
        trips := trips + 1;
        var t := renew(token);
        if t.None? { return Failure; }
        token := t.value;
      } else if a.status >= 400 {
        if Mutating(c.verb) && !repeated && ConcurrentModification(a) {
          repeated := true;
          trips := trips + 1;
        } else {
          return ApiError(a.status, a.title);
        }
      } else {
        return Ok(a.status);
      }
    }
  }

  lemma TripsAre(verb: string, bearer: string)
    ensures Trips(verb, bearer) == 1 + (if bearer == "" then 1 else 0) + (if Mutating(verb) then 1 else 0)
  {
  }

  lemma NothingSent(before: seq<Sent>, key: Option<Key>, tokens: set<string>)
    ensures SentFor(before, before, key, tokens)
  {
    assert before[..|before|] == before;
  }

  lemma GainedLength(mid: seq<Sent>, sent: seq<Sent>, one: Sent, n: nat)
    requires Gained(mid, sent, one, n)
    ensures |sent| == |mid| + n
  {
  }

  lemma EffectOnce(s: Server, k: Key)
    requires s.Consistent()
    ensures s.effects[k] <= 1 && (k in s.stored ==> s.effects[k] == 1)
  {
  }
}
