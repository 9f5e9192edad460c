/** The SDK's identity at SME and its cached token, shared by all callers of one client under a lock. */
module TokenSource {
  import opened Text
  import opened RetryPolicy

  const EXPIRY_MARGIN: Duration := 30_000_000_000
  const DEFAULT_EXPIRES_IN: Duration := 60_000_000_000
  const SUFFIX := "/oauth2/token"

  // ---------------------------------------------------------------- what SME and the gateway answer

  /** A token grant: a token with the lifetime SME reports in seconds (not positive: none reported), or a refusal. */
  datatype Grant = Token(token: string, expiresIn: Duration) | InvalidClient | Refused

  datatype Invoker = Invoker(id: string, secret: string)

  /**
   * Everything one `acquire` may meet: the token endpoints the bootstrap names (`None`: no usable answer), the answers to a
   * first and a second registration and grant, and the clock when the token is in hand.
   */
  datatype Answers = Answers(
    endpoints: Option<seq<string>>, register1: Option<Invoker>, grant1: Invoker -> Grant,
    register2: Option<Invoker>, grant2: Invoker -> Grant, received: int)

  predicate Usable(i: Option<Invoker>) {
    i.Some? && i.value.id != "" && i.value.secret != ""
  }

  predicate EndsWith(s: string, suffix: string) {
    |s| >= |suffix| && s[|s| - |suffix|..] == suffix
  }

  /** The first endpoint that is named at all, when it has the expected shape. */
  function FirstEndpoint(uris: seq<string>): (r: Option<string>)
    ensures r.Some? ==> r.value != "" && EndsWith(r.value, SUFFIX) && r.value in uris
  {
    if uris == [] then None
    else if uris[0] == "" then FirstEndpoint(uris[1..])
    else if EndsWith(uris[0], SUFFIX) then Some(uris[0]) else None
  }

  // ---------------------------------------------------------------- the state and its steps

  datatype Source = Source(endpoint: string, who: Invoker, pinned: bool, token: string, expires: int)

  function Start(configured: Invoker): Source {
    Source("", configured, configured.id != "", "", 0)
  }

  /** How long a token is used: its lifetime less a margin, at least a second; the products and sums are `int64`. */
  function UseFor(expiresIn: Duration): Duration {
    var ttl := if expiresIn > 0 then Wrap(expiresIn * SECOND) else DEFAULT_EXPIRES_IN;
    Max(Wrap(ttl - EXPIRY_MARGIN), SECOND)
  }

  /** What `acquire` leaves behind and answers. */
  datatype Acquired = Acquired(source: Source, token: Option<string>)

  function WithIdentity(s: Source, i: Option<Invoker>): Option<Source> {
    if Usable(i) then Some(s.(who := i.value)) else None
  }

  function Accept(s: Source, g: Grant, received: int): Acquired {
    if g.Token? && g.token != "" then
      Acquired(s.(token := g.token, expires := received + UseFor(g.expiresIn)), Some(g.token))
    else Acquired(s, None)
  }

  function Granted(s: Source, a: Answers): Acquired {
    var g := a.grant1(s.who);
    if g.InvalidClient? && !s.pinned then
      var again := WithIdentity(s, a.register2);
      if again.None? then Acquired(s, None) else Accept(again.value, a.grant2(again.value.who), a.received)
    else Accept(s, g, a.received)
  }

  function Acquires(s: Source, a: Answers): Acquired {
    var s0 := s.(token := "");
    var found := if s0.endpoint != "" then Some(s0.endpoint) else if a.endpoints.Some? then FirstEndpoint(a.endpoints.value) else None;
    if found.None? then Acquired(s0, None)
    else
      var s1 := s0.(endpoint := found.value);
      if s1.who.id == "" then
        var s2 := WithIdentity(s1, a.register1);
        if s2.None? then Acquired(s1, None) else Granted(s2.value, a)
      else Granted(s1, a)
  }

  function Gets(s: Source, now: int, a: Answers): Acquired {
    if s.token != "" && now < s.expires then Acquired(s, Some(s.token)) else Acquires(s, a)
  }

  function Refreshes(s: Source, rejected: string, a: Answers): Acquired {
    if s.token != "" && s.token != rejected then Acquired(s, Some(s.token)) else Acquires(s, a)
  }

  // ---------------------------------------------------------------- identity

  /** `token` is one SME granted to `who` at `received` with this lifetime, when it met `a`. */
  ghost predicate GrantedTo(a: Answers, who: Invoker, token: string, expiresIn: Duration) {
    a.grant1(who) == Token(token, expiresIn) || a.grant2(who) == Token(token, expiresIn)
  }

  /** What one `acquire` does: nothing is cached on failure; on success the token is the new identity's own; a pinned identity stays. */
  lemma AcquireKeeps(s: Source, a: Answers)
    ensures var r := Acquires(s, a);
      && (r.token.None? ==> r.source.token == "")
      && (r.token.Some? ==> r.token.value != "" && r.source.token == r.token.value && r.source.who.id != "")
      && (r.token.Some? ==> exists e :: GrantedTo(a, r.source.who, r.token.value, e) && r.source.expires == a.received + UseFor(e))
      && r.source.pinned == s.pinned
      && (s.pinned && s.who.id != "" ==> r.source.who == s.who)
      && (s.endpoint != "" ==> r.source.endpoint == s.endpoint)
  {
    var r := Acquires(s, a);
    if r.token.Some? {
      var e := if a.grant1(r.source.who).Token? && a.grant1(r.source.who).token == r.token.value
                  && r.source.expires == a.received + UseFor(a.grant1(r.source.who).expiresIn)
               then a.grant1(r.source.who).expiresIn else a.grant2(r.source.who).expiresIn;
      assert GrantedTo(a, r.source.who, r.token.value, e);
    }
  }

  /** A renewal answers the token now cached, and never the rejected one unless SME grants that one again. */
  lemma RefreshReplaces(s: Source, rejected: string, a: Answers)
    requires forall w, e :: !GrantedTo(a, w, rejected, e)
    ensures var r := Refreshes(s, rejected, a); r.token.Some? ==> r.token.value != rejected && r.source.token == r.token.value
  {
    hide Acquires;
    AcquireKeeps(s, a);
  }

  /** `get` answers the cached token only while it may be used, and otherwise one SME has just granted. */
  lemma AnswerIsAlive(s: Source, now: int, a: Answers)
    ensures var r := Gets(s, now, a); r.token.Some? ==>
      || (r.source == s && r.token == Some(s.token) && now < s.expires)
      || exists e :: GrantedTo(a, r.source.who, r.token.value, e) && r.source.expires == a.received + UseFor(e)
  {
    hide Acquires;
    AcquireKeeps(s, a);
  }

  // ---------------------------------------------------------------- runs of many callers

  /** The lock makes every call of every caller one step. */
  datatype Op = GetToken(now: int, a: Answers) | Renew(rejected: string, a: Answers)

  function Step(s: Source, op: Op): Acquired {
    match op
    case GetToken(now, a) => Gets(s, now, a)
    case Renew(rejected, a) => Refreshes(s, rejected, a)
  }

  function After(s: Source, ops: seq<Op>): Source
    decreases |ops|
  {
    if ops == [] then s else After(Step(s, ops[0]).source, ops[1..])
  }

  /** The cached token was granted to the present identity in one of the steps taken, and is used no longer than it may be. */
  ghost predicate Owned(s: Source, ops: seq<Op>) {
    s.token != "" ==> s.who.id != "" && exists i, e ::
      0 <= i < |ops| && GrantedTo(ops[i].a, s.who, s.token, e) && s.expires == ops[i].a.received + UseFor(e)
  }

  lemma StepOwns(s: Source, past: seq<Op>, op: Op)
    requires Owned(s, past)
    ensures Owned(Step(s, op).source, past + [op])
    ensures Step(s, op).token.Some? ==> Step(s, op).token.value == Step(s, op).source.token
    ensures Step(s, op).source.pinned == s.pinned && (s.pinned && s.who.id != "" ==> Step(s, op).source.who == s.who)
  {
    hide Acquires;
    AcquireKeeps(s, op.a);
    var all := past + [op];
    assert all[|past|] == op;
    var r := Step(s, op).source;
    if r == Acquires(s, op.a).source {
      if r.token != "" {
        var e :| GrantedTo(op.a, r.who, r.token, e) && r.expires == op.a.received + UseFor(e);
        assert GrantedTo(all[|past|].a, r.who, r.token, e);
      }
    } else if s.token != "" {
      var i, e :| 0 <= i < |past| && GrantedTo(past[i].a, s.who, s.token, e) && s.expires == past[i].a.received + UseFor(e);
      assert all[i] == past[i];
    }
  }

  lemma {:induction false} RunOwns(s: Source, past: seq<Op>, ops: seq<Op>)
    requires Owned(s, past)
    ensures Owned(After(s, ops), past + ops)
    ensures After(s, ops).pinned == s.pinned && (s.pinned && s.who.id != "" ==> After(s, ops).who == s.who)
    decreases |ops|
  {
    hide Owned, Step;
    if ops == [] {
      assert past + ops == past;
    } else {
      StepOwns(s, past, ops[0]);
      RunOwns(Step(s, ops[0]).source, past + [ops[0]], ops[1..]);
      assert past + [ops[0]] + ops[1..] == past + ops;
    }
  }

  /** Whatever the callers do, the cached token belongs to the current invoker, and a configured invoker is never replaced. */
  lemma TokenBelongs(configured: Invoker, ops: seq<Op>)
    ensures Owned(After(Start(configured), ops), ops)
    ensures configured.id != "" ==> After(Start(configured), ops).who == configured
  {
    RunOwns(Start(configured), [], ops);
    assert [] + ops == ops;
  }

  // ---------------------------------------------------------------- lifetimes

  /** The wrap-around of the lifetime in nanoseconds never lengthens the use of a token. */
  lemma UseIsBounded(expiresIn: Duration)
    requires expiresIn > 0
    ensures SECOND <= UseFor(expiresIn) <= Max(expiresIn * SECOND - EXPIRY_MARGIN, SECOND)
  {
    var ttl := Wrap(expiresIn * SECOND);
    var back := Wrap(ttl - EXPIRY_MARGIN);
    if ttl - EXPIRY_MARGIN < -TWO63 {
      WrapsBack(expiresIn * SECOND - EXPIRY_MARGIN, ttl - EXPIRY_MARGIN);
    }
  }

  lemma WrapsBack(n: int, m: int)
    requires (n - m) % TWO64 == 0 && n >= -TWO63
    ensures Wrap(m) == Wrap(n) <= n
  {
    var k := (n - m) / TWO64;
    assert n + TWO63 == m + TWO63 + k * TWO64;
    SameRemainder(m + TWO63, k);
  }

  lemma SameRemainder(a: int, k: int)
    ensures (a + k * TWO64) % TWO64 == a % TWO64
  {
  }

  /** How long SME honours a token, in nanoseconds; one granted without a lifetime is taken to have the default. */
  function Life(expiresIn: Duration): int {
    if expiresIn > 0 then expiresIn * SECOND else DEFAULT_EXPIRES_IN
  }

  /** The grant of step `i` is where the token comes from, and SME still honours it. */
  ghost predicate Alive(ops: seq<Op>, i: nat, who: Invoker, token: string, expiresIn: Duration, issued: int, now: int)
    requires i < |ops|
  {
    var received := ops[i].a.received;
    && GrantedTo(ops[i].a, who, token, expiresIn)
    && now < received + Life(expiresIn)
    && (received - issued <= Min(EXPIRY_MARGIN, Life(expiresIn) - SECOND) ==> now < issued + Life(expiresIn))
  }

  /**
   * After any run of any callers, a token answered from the cache is one SME granted to the present invoker in one of the
   * steps, and is still alive: always when counted from its arrival, and when counted from its issue, `issued(i)` for step `i`,
   * at least if it travelled no longer than the margin and its life less a second.
   */
  lemma NeverOutlived(configured: Invoker, ops: seq<Op>, now: int, a: Answers, issued: nat -> int)
    requires var s := After(Start(configured), ops); s.token != "" && now < s.expires
    ensures var s := After(Start(configured), ops);
      && Gets(s, now, a) == Acquired(s, Some(s.token))
      && exists i: nat, e :: i < |ops| && Alive(ops, i, s.who, s.token, e, issued(i), now)
  {
    hide After, UseFor, Wrap;
    TokenBelongs(configured, ops);
    var s := After(Start(configured), ops);
    var i, e :| 0 <= i < |ops| && GrantedTo(ops[i].a, s.who, s.token, e) && s.expires == ops[i].a.received + UseFor(e);
    UseIsWithinLife(e);
    assert Alive(ops, i, s.who, s.token, e, issued(i), now);
  }

  lemma UseIsWithinLife(expiresIn: Duration)
    ensures UseFor(expiresIn) <= Max(Life(expiresIn) - EXPIRY_MARGIN, SECOND) && SECOND <= Life(expiresIn)
  {
    if expiresIn > 0 { UseIsBounded(expiresIn); }
  }

  /** `get` still answers the token at `now`. */
  predicate Cached(received: int, expiresIn: Duration, now: int) {
    now < received + UseFor(expiresIn)
  }

  /** SME still honours the token at `now`. */
  predicate Honoured(issued: int, expiresIn: Duration, now: int) {
    now < issued + expiresIn * SECOND
  }

  /** The delay allowed is exact: one nanosecond more and a token can be used after SME stops honouring it. */
  lemma DelayIsExact(received: int, issued: int, expiresIn: Duration)
    requires 0 < expiresIn <= 9_223_372_036
    ensures received - issued <= Min(EXPIRY_MARGIN, expiresIn * SECOND - SECOND) <==>
      forall now :: Cached(received, expiresIn, now) ==> Honoured(issued, expiresIn, now)
  {
    assert UseFor(expiresIn) == Max(expiresIn * SECOND - EXPIRY_MARGIN, SECOND);
    var last := received + UseFor(expiresIn) - 1;
    assert Cached(received, expiresIn, last);
    if forall now :: Cached(received, expiresIn, now) ==> Honoured(issued, expiresIn, now) {
      assert Honoured(issued, expiresIn, last);
    }
  }

  // ---------------------------------------------------------------- one rejected token, many callers

  /** The step has to ask SME. */
  predicate Asks(s: Source, op: Op) {
    match op
    case GetToken(now, _) => s.token == "" || now >= s.expires
    case Renew(rejected, _) => s.token == "" || s.token == rejected
  }

  /** The steps of a run that got a new token from SME. */
  function Grants(s: Source, ops: seq<Op>): nat
    decreases |ops|
  {
    if ops == [] then 0
    else
      var r := Step(s, ops[0]);
      (if Asks(s, ops[0]) && r.token.Some? then 1 else 0) + Grants(r.source, ops[1..])
  }

  /** Every caller that renews was told the same token was rejected, no cached token runs out meanwhile, and SME does not grant the rejected token again. */
  ghost predicate SameRejection(s: Source, rejected: string, ops: seq<Op>)
    decreases |ops|
  {
    ops == [] ||
    ( && (forall w, e :: !GrantedTo(ops[0].a, w, rejected, e))
      && (match ops[0]
          case Renew(r, _) => r == rejected
          case GetToken(now, _) => s.token == "" || now < s.expires)
      && SameRejection(Step(s, ops[0]).source, rejected, ops[1..]))
  }

  /** Any number of callers rejecting the same token cause at most one new grant; when the token is already another one, none. */
  lemma {:induction false} OneGrant(s: Source, rejected: string, ops: seq<Op>)
    requires SameRejection(s, rejected, ops)
    ensures Grants(s, ops) <= 1
    ensures s.token != "" && s.token != rejected ==> Grants(s, ops) == 0 && After(s, ops) == s
    decreases |ops|
  {
    hide Acquires;
    if ops != [] {
      AcquireKeeps(s, ops[0].a);
      OneGrant(Step(s, ops[0]).source, rejected, ops[1..]);
    }
  }

  // ---------------------------------------------------------------- the program

  /** `tokenSource`; every method holds the lock. */
  class Tokens {
    var tokenEndpoint: string
    var invokerId: string
    var secret: string
    const pinned: bool
    var token: string
    var expires: int

    constructor (configured: Invoker)
      ensures Now() == Start(configured)
    {
      tokenEndpoint, invokerId, secret, pinned, token, expires := "", configured.id, configured.secret, configured.id != "", "", 0;
    }

    function Now(): Source
      reads this
    {
      Source(tokenEndpoint, Invoker(invokerId, secret), pinned, token, expires)
    }

    method Get(now: int, a: Answers) returns (r: Option<string>)
      modifies this
      ensures Acquired(Now(), r) == Gets(old(Now()), now, a)
    {
      if token != "" && now < expires { return Some(token); }
      r := Acquire(a);
    }

    method Refresh(rejected: string, a: Answers) returns (r: Option<string>)
      modifies this
      ensures Acquired(Now(), r) == Refreshes(old(Now()), rejected, a)
    {
      if token != "" && token != rejected { return Some(token); }
      r := Acquire(a);
    }

    method Acquire(a: Answers) returns (r: Option<string>)
      modifies this
      ensures Acquired(Now(), r) == Acquires(old(Now()), a)
    {
      hide Wrap, FirstEndpoint, EndsWith;
      token := "";
      var ok := Discover(a.endpoints);
      if !ok { return None; }
      if invokerId == "" {
        ok := Onboard(a.register1);
        if !ok { return None; }
      }
      var g := a.grant1(Invoker(invokerId, secret));
      if g.InvalidClient? && !pinned {
        ok := Onboard(a.register2);
        if !ok { return None; }
        g := a.grant2(Invoker(invokerId, secret));
      }
      if !(g.Token? && g.token != "") { return None; }
      token := g.token;
      var ttl: Duration := DEFAULT_EXPIRES_IN;
      if g.expiresIn > 0 { ttl := Wrap(g.expiresIn * SECOND); }
      expires := a.received + Max(Wrap(ttl - EXPIRY_MARGIN), SECOND);
      return Some(token);
    }

    method Discover(endpoints: Option<seq<string>>) returns (ok: bool)
      modifies this`tokenEndpoint
      ensures var found := if old(tokenEndpoint) != "" then Some(old(tokenEndpoint))
                           else if endpoints.Some? then FirstEndpoint(endpoints.value) else None;
        ok == found.Some? && tokenEndpoint == (if ok then found.value else old(tokenEndpoint))
    {
      if tokenEndpoint != "" { return true; }
      if endpoints.None? { return false; }
      var uris := endpoints.value;
      assert uris[0..] == uris;
      for i := 0 to |uris|
        invariant FirstEndpoint(uris[i..]) == FirstEndpoint(uris) && tokenEndpoint == ""
      {
        assert uris[i..][1..] == uris[i + 1..];
        if uris[i] != "" {
          if !EndsWith(uris[i], SUFFIX) { return false; }
          tokenEndpoint := uris[i];
          return true;
        }
      }
      return false;
    }

    method Onboard(answer: Option<Invoker>) returns (ok: bool)
      modifies this`invokerId, this`secret
      ensures ok == Usable(answer)
      ensures Invoker(invokerId, secret) == if ok then answer.value else old(Invoker(invokerId, secret))
    {
      if answer.None? || answer.value.id == "" || answer.value.secret == "" { return false; }
      invokerId, secret := answer.value.id, answer.value.secret;
      return true;
    }
  }
}
