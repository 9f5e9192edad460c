/** One idempotency key between replicas: reservations, takeovers, crashes, and how often its command takes effect. */
module Idempotency {
  import opened Text

  // ---------------------------------------------------------------- the record and the attempts

  /** The committed record of the key: the request it is bound to, the stored answer, and when it was reserved or taken over. */
  datatype Row = Row(hash: string, done: Option<int>, created: nat)

  datatype Reply = Success(status: int) | Replayed(status: int) | Reused | InProgress | Failure

  /**
   * Where an attempt is: before its `turn`-th look at the record, after seeing an old reservation made at `created`, owner of
   * the key with its route running, past its route's own commit, or over, with what it answered unless it crashed.
   */
  datatype Phase = Looking(turn: nat) | Saw(created: nat, turn: nat) | Own | Acted(status: int) | Over(reply: Option<Reply>)

  datatype Attempt = Attempt(hash: string, phase: Phase)

  /** `effects` counts the attempts whose route returned, and so took effect. */
  datatype System = System(now: nat, row: Option<Row>, attempts: map<nat, Attempt>, effects: nat, timeout: nat, ttl: nat)

  /** Every action is one transaction, or one thing that happens outside the database. */
  datatype Action =
    | Tick(seconds: nat)
    | Arrive(a: nat, hash: string)
    | Reserve(a: nat)
    | LoseRace(a: nat)
    | Look(a: nat)
    | TakeOver(a: nat)
    | GiveUp(a: nat)
    | Act(a: nat, status: int)
    | Fail(a: nat)
    | FailLate(a: nat)  // the route raises after its own commit
    | Store(a: nat)
    | Crash(a: nat)
    | Purge

  function Start(timeout: nat, ttl: nat): System {
    System(0, None, map[], 0, timeout, ttl)
  }

  predicate Holder(s: System, a: nat) {
    a in s.attempts && (s.attempts[a].phase.Own? || s.attempts[a].phase.Acted?)
  }

  predicate IsLooking(s: System, a: nat) {
    a in s.attempts && s.attempts[a].phase.Looking? && s.attempts[a].phase.turn < 2
  }

  /** The guarded update of a takeover changes a row. */
  predicate Takes(s: System, a: nat) {
    a in s.attempts && s.attempts[a].phase.Saw? && s.row.Some? && s.row.value.created == s.attempts[a].phase.created
  }

  predicate Enabled(s: System, x: Action) {
    match x
    case Tick(_) => true
    case Arrive(a, _) => a !in s.attempts
    case Reserve(a) => IsLooking(s, a) && s.row.None?
    case LoseRace(a) => IsLooking(s, a) && s.row.Some?
    case Look(a) => IsLooking(s, a) && s.row.Some?
    case TakeOver(a) => a in s.attempts && s.attempts[a].phase.Saw?
    case GiveUp(a) => a in s.attempts && s.attempts[a].phase.Looking? && s.attempts[a].phase.turn >= 2
    case Act(a, _) => a in s.attempts && s.attempts[a].phase.Own?
    case Fail(a) => a in s.attempts && s.attempts[a].phase.Own?
    case FailLate(a) => a in s.attempts && s.attempts[a].phase.Acted?
    case Store(a) => a in s.attempts && s.attempts[a].phase.Acted?
    case Crash(a) => a in s.attempts && !s.attempts[a].phase.Over?
    case Purge => s.row.Some? && s.row.value.created + s.ttl < s.now
  }

  function Moved(s: System, a: nat, phase: Phase): System
    requires a in s.attempts
  {
    s.(attempts := s.attempts[a := s.attempts[a].(phase := phase)])
  }

  /** What an attempt does on seeing the record. */
  function Looked(s: System, a: nat): Phase
    requires IsLooking(s, a) && s.row.Some?
  {
    var row := s.row.value;
    if row.hash != s.attempts[a].hash then Over(Some(Reused))
    else if row.done.Some? then Over(Some(Replayed(row.done.value)))
    else if s.now - row.created > s.timeout then Saw(row.created, s.attempts[a].phase.turn)
    else Over(Some(InProgress))
  }

  /** `_release`: whoever holds the reservation by now, it goes, unless an answer is stored. */
  function Released(s: System): System {
    if s.row.Some? && s.row.value.done.None? then s.(row := None) else s
  }

  function Next(s: System, x: Action): System
    requires Enabled(s, x)
  {
    match x
    case Tick(seconds) => s.(now := s.now + seconds)
    case Arrive(a, hash) => s.(attempts := s.attempts[a := Attempt(hash, Looking(0))])
    case Reserve(a) => Moved(s.(row := Some(Row(s.attempts[a].hash, None, s.now))), a, Own)
    case LoseRace(a) => Moved(s, a, Looking(s.attempts[a].phase.turn + 1))
    case Look(a) => Moved(s, a, Looked(s, a))
    case TakeOver(a) =>
      if Takes(s, a) then Moved(s.(row := Some(s.row.value.(created := s.now))), a, Own)
      else Moved(s, a, Looking(s.attempts[a].phase.turn + 1))
    case GiveUp(a) => Moved(s, a, Over(Some(InProgress)))
    case Act(a, status) => Moved(s.(effects := s.effects + 1), a, Acted(status))
    case Fail(a) => Moved(Released(s), a, Over(Some(Failure)))
    case FailLate(a) => Moved(Released(s), a, Over(Some(Failure)))
    case Store(a) =>
      var status := s.attempts[a].phase.status;
      Moved(if s.row.Some? then s.(row := Some(s.row.value.(done := Some(status)))) else s, a, Over(Some(Success(status))))
    case Crash(a) => Moved(s, a, Over(None))
    case Purge => s.(row := None)
  }

  ghost predicate Allowed(s: System, xs: seq<Action>)
    decreases |xs|
  {
    xs == [] || (Enabled(s, xs[0]) && Allowed(Next(s, xs[0]), xs[1..]))
  }

  ghost function After(s: System, xs: seq<Action>): System
    requires Allowed(s, xs)
    decreases |xs|
  {
    if xs == [] then s else After(Next(s, xs[0]), xs[1..])
  }

  // ---------------------------------------------------------------- at most once

  /** Nobody is running the command and it has not taken effect. */
  ghost predicate Quiet(s: System) {
    s.effects == 0 && forall a :: !Holder(s, a)
  }

  /** A takeover, or the removal of a record, that finds the key quiet; every other action but a failure after the effect. */
  ghost predicate Calm(s: System, x: Action) {
    match x
    case TakeOver(a) => Takes(s, a) ==> Quiet(s)
    case Purge => Quiet(s)
    case FailLate(_) => false
    case _ => true
  }

  ghost predicate CalmRun(s: System, xs: seq<Action>)
    requires Allowed(s, xs)
    decreases |xs|
  {
    xs == [] || (Calm(s, xs[0]) && CalmRun(Next(s, xs[0]), xs[1..]))
  }

  /** What the phase of one attempt says about the record. */
  ghost predicate Fits(s: System, a: nat)
    requires a in s.attempts
  {
    match s.attempts[a].phase
    case Own => s.row.Some? && s.row.value.done.None? && s.row.value.hash == s.attempts[a].hash && s.effects == 0
    case Acted(_) => s.row.Some? && s.row.value.done.None? && s.row.value.hash == s.attempts[a].hash && s.effects == 1
    case Saw(created, _) => created + s.timeout < s.now && (Takes(s, a) ==> s.row.value.hash == s.attempts[a].hash)
    case Over(Some(Success(status))) => s.row.Some? && s.row.value.done == Some(status)
    case Over(Some(Replayed(status))) => s.row.Some? && s.row.value.done == Some(status)
    case _ => true
  }

  ghost predicate Invariant(s: System) {
    && s.effects <= 1
    && (s.row.None? ==> s.effects == 0)
    && (s.row.Some? && s.row.value.done.Some? ==> s.effects == 1)
    && (forall a :: a in s.attempts ==> Fits(s, a))
    && (forall a, b :: Holder(s, a) && Holder(s, b) ==> a == b)
  }

  lemma StepKeeps(s: System, x: Action)
    requires Invariant(s) && Enabled(s, x) && Calm(s, x)
    ensures Invariant(Next(s, x))
  {
    var t := Next(s, x);
    if x.Act? || x.Fail? || x.Store? { assert Holder(s, x.a) && Fits(s, x.a); }
    forall a | a in t.attempts ensures Fits(t, a) {
      if a in s.attempts { assert Fits(s, a) && (Holder(t, a) ==> Holder(s, a) || !Holder(s, a)); }
    }
    forall a, b | Holder(t, a) && Holder(t, b) ensures a == b {
      if Holder(s, a) { assert Fits(s, a); }
      if Holder(s, b) { assert Fits(s, b); }
    }
  }

  /** Whatever is interleaved with whatever, crashes included, a calm run keeps the books straight. */
  lemma {:induction false} CalmRunKeeps(s: System, xs: seq<Action>)
    requires Invariant(s) && Allowed(s, xs) && CalmRun(s, xs)
    ensures Invariant(After(s, xs))
    decreases |xs|
  {
    hide Invariant, Enabled, Next, Calm;
    if xs != [] {
      StepKeeps(s, xs[0]);
      CalmRunKeeps(Next(s, xs[0]), xs[1..]);
    }
  }

  /** The attempt was answered with success, its own or a stored one. */
  predicate Succeeded(s: System, a: nat, status: int) {
    a in s.attempts && (s.attempts[a].phase == Over(Some(Success(status))) || s.attempts[a].phase == Over(Some(Replayed(status))))
  }

  /** In every calm run the command takes effect at most once, and exactly once, with one status, if any attempt was told that it did. */
  lemma AtMostOnce(xs: seq<Action>, timeout: nat, ttl: nat)
    requires Allowed(Start(timeout, ttl), xs) && CalmRun(Start(timeout, ttl), xs)
    ensures var t := After(Start(timeout, ttl), xs);
      && t.effects <= 1
      && (forall a, m :: Succeeded(t, a, m) ==> t.effects == 1)
      && (forall a, b, m, n :: Succeeded(t, a, m) && Succeeded(t, b, n) ==> m == n)
  {
    hide Enabled, Next, Calm, Allowed, CalmRun, After;
    CalmRunKeeps(Start(timeout, ttl), xs);
    var t := After(Start(timeout, ttl), xs);
    forall a, m | Succeeded(t, a, m) ensures t.row.Some? && t.row.value.done == Some(m) { assert Fits(t, a); }
  }

  // ---------------------------------------------------------------- the condition is exact

  lemma OneStep(s: System, x: Action)
    requires Enabled(s, x) && Calm(s, x)
    ensures Allowed(s, [x]) && CalmRun(s, [x]) && After(s, [x]) == Next(s, x)
  {
    hide Enabled, Next, Calm;
    assert [x][1..] == [] && Allowed(Next(s, x), []);
  }

  lemma TwoSteps(s: System, x: Action, y: Action)
    requires Enabled(s, x) && Calm(s, x) && Enabled(Next(s, x), y) && Calm(Next(s, x), y)
    ensures Allowed(s, [x, y]) && CalmRun(s, [x, y]) && After(s, [x, y]) == Next(Next(s, x), y)
  {
    hide Enabled, Next, Calm;
    OneStep(Next(s, x), y);
    assert [x, y][1..] == [y];
  }

  /** One more effect is possible as long as an attempt owns the key. */
  lemma ActsTwice(s: System, a: nat, b: nat)
    requires a != b && a in s.attempts && b in s.attempts && s.attempts[a].phase.Own? && s.attempts[b].phase.Own?
    ensures var xs := [Act(a, 200), Act(b, 200)]; Allowed(s, xs) && CalmRun(s, xs) && After(s, xs).effects == s.effects + 2
  {
    hide Allowed, CalmRun, After;
    TwoSteps(s, Act(a, 200), Act(b, 200));
  }

  lemma ActsOnce(s: System, a: nat)
    requires a in s.attempts && s.attempts[a].phase.Own?
    ensures var xs := [Act(a, 200)]; Allowed(s, xs) && CalmRun(s, xs) && After(s, xs).effects == s.effects + 1
  {
    hide Allowed, CalmRun, After;
    OneStep(s, Act(a, 200));
  }

  /** Every calm continuation has at most one effect. */
  ghost predicate Safe(s: System) {
    forall xs :: Allowed(s, xs) && CalmRun(s, xs) ==> After(s, xs).effects <= 1
  }

  /**
   * A takeover is safe exactly when nobody who owned the key is still running and the command has not taken effect: neither the
   * age of the reservation nor the guarded update makes it so.
   */
  lemma {:induction false} TakeOverIsExact(s: System, a: nat)
    requires Invariant(s) && Takes(s, a)
    ensures Safe(Next(s, TakeOver(a))) <==> Quiet(s)
  {
    var t := Next(s, TakeOver(a));
    assert Enabled(s, TakeOver(a)) && t.attempts[a].phase == Own;
    if Quiet(s) {
      StepKeeps(s, TakeOver(a));
      InvariantIsSafe(t);
    } else if s.effects >= 1 {
      ActsOnce(t, a);
    } else {
      var b :| Holder(s, b);
      assert Fits(s, b);
      ActsTwice(t, a, b);
    }
  }

  lemma InvariantIsSafe(s: System)
    requires Invariant(s)
    ensures Safe(s)
  {
    forall xs | Allowed(s, xs) && CalmRun(s, xs) ensures After(s, xs).effects <= 1 { CalmRunKeeps(s, xs); }
  }

  /** A number no attempt has. */
  lemma Unused(m: map<nat, Attempt>) returns (n: nat)
    ensures n !in m
  {
    n := NextId(m.Keys);
  }

  ghost function NextId(ids: set<nat>): (n: nat)
    ensures forall i :: i in ids ==> i < n
  {
    if ids == {} then 0
    else
      var i :| i in ids;
      var n := NextId(ids - {i});
      assert forall j :: j in ids ==> j == i || j in ids - {i};
      if n <= i then i + 1 else n
  }

  lemma NewOwner(s: System, hash: string) returns (n: nat, xs: seq<Action>)
    requires s.row.None?
    ensures n !in s.attempts && Allowed(s, xs) && CalmRun(s, xs) && |xs| == 2
    ensures var t := After(s, xs); n in t.attempts && t.attempts[n].phase.Own? && t.effects == s.effects
    ensures var t := After(s, xs); forall b :: b in s.attempts ==> b in t.attempts && t.attempts[b] == s.attempts[b]
  {
    hide Allowed, CalmRun, After;
    n := Unused(s.attempts);
    xs := [Arrive(n, hash), Reserve(n)];
    TwoSteps(s, Arrive(n, hash), Reserve(n));
  }

  lemma {:induction false} RunPlus(s: System, xs: seq<Action>, ys: seq<Action>)
    requires Allowed(s, xs) && Allowed(After(s, xs), ys)
    ensures Allowed(s, xs + ys) && After(s, xs + ys) == After(After(s, xs), ys)
    ensures CalmRun(s, xs) && CalmRun(After(s, xs), ys) ==> CalmRun(s, xs + ys)
    decreases |xs|
  {
    hide Enabled, Next, Calm;
    if xs == [] {
      assert xs + ys == ys;
    } else {
      assert (xs + ys)[1..] == xs[1..] + ys;
      RunPlus(Next(s, xs[0]), xs[1..], ys);
    }
  }

  /** Removing a record is safe exactly in the same case: a finished command runs again when its key comes back after the expiry. */
  lemma {:induction false} PurgeIsExact(s: System, hash: string)
    requires Invariant(s) && Enabled(s, Purge)
    ensures Safe(Next(s, Purge)) <==> Quiet(s)
  {
    var t := Next(s, Purge);
    if Quiet(s) {
      StepKeeps(s, Purge);
      InvariantIsSafe(t);
    } else {
      var n, xs := NewOwner(t, hash);
      var u := After(t, xs);
      if s.effects >= 1 {
        ActsOnce(u, n);
        RunPlus(t, xs, [Act(n, 200)]);
      } else {
        var b :| Holder(s, b);
        assert Fits(s, b);
        ActsTwice(u, n, b);
        RunPlus(t, xs, [Act(n, 200), Act(b, 200)]);
      }
    }
  }

  /** A route that raises after its own commit is never safe: its reservation is released although the command took effect. */
  lemma {:induction false} LateFailureIsUnsafe(s: System, a: nat, hash: string)
    requires Invariant(s) && Enabled(s, FailLate(a))
    ensures !Safe(Next(s, FailLate(a)))
  {
    assert Fits(s, a);
    var t := Next(s, FailLate(a));
    var n, xs := NewOwner(t, hash);
    ActsOnce(After(t, xs), n);
    RunPlus(t, xs, [Act(n, 200)]);
  }

  // ---------------------------------------------------------------- when takeovers are calm

  /**
   * No attempt runs longer than the timeout, none dies between its route's commit and the stored answer, and records outlive
   * the run. In a prompt run no route raises after its own commit either.
   */
  ghost predicate Prompt(s: System) {
    && (forall a :: Holder(s, a) && s.row.Some? ==> s.now <= s.row.value.created + s.timeout)
    && (s.effects >= 1 ==> (exists a :: Holder(s, a)) || (s.row.Some? && s.row.value.done.Some?))
    && !Enabled(s, Purge)
  }

  ghost predicate PromptRun(s: System, xs: seq<Action>)
    requires Allowed(s, xs)
    decreases |xs|
  {
    Prompt(s) && (xs == [] || (!xs[0].FailLate? && PromptRun(Next(s, xs[0]), xs[1..])))
  }

  /** An attempt that saw an old reservation and could still take it over has seen one that was abandoned before it had any effect. */
  ghost predicate SeenIsQuiet(s: System) {
    forall a :: Takes(s, a) ==> Quiet(s)
  }

  lemma NoneWhenOld(s: System)
    requires Prompt(s) && s.row.Some? && s.now > s.row.value.created + s.timeout
    ensures forall a :: !Holder(s, a)
  {
  }

  lemma PromptStep(s: System, x: Action)
    requires Invariant(s) && SeenIsQuiet(s) && Prompt(s) && Enabled(s, x) && !x.FailLate?
    ensures Calm(s, x) && SeenIsQuiet(Next(s, x))
  {
    var t := Next(s, x);
    if x.Act? || x.Fail? || x.Store? { assert Holder(s, x.a) && Fits(s, x.a); }
    forall a | Takes(t, a) ensures Quiet(t) {
      assert a in s.attempts;
      assert Fits(s, a);
      if !Takes(s, a) {
        assert x == Look(a);
        NoneWhenOld(s);
      }
      forall b ensures !Holder(t, b) {
        assert !Holder(s, b);
      }
    }
  }

  /** So, with prompt attempts, crashes before the command's own commit are recovered from, and the command still acts at most once. */
  lemma {:induction false} PromptRunsAreCalm(s: System, xs: seq<Action>)
    requires Invariant(s) && SeenIsQuiet(s) && Allowed(s, xs) && PromptRun(s, xs)
    ensures CalmRun(s, xs)
    decreases |xs|
  {
    hide Invariant, SeenIsQuiet, Prompt, Enabled, Next, Calm;
    if xs != [] {
      PromptStep(s, xs[0]);
      StepKeeps(s, xs[0]);
      PromptRunsAreCalm(Next(s, xs[0]), xs[1..]);
    }
  }

  /** The promise as a caller meets it: prompt attempts, and crashes anywhere else. */
  lemma PromptAtMostOnce(xs: seq<Action>, timeout: nat, ttl: nat)
    requires Allowed(Start(timeout, ttl), xs) && PromptRun(Start(timeout, ttl), xs)
    ensures var t := After(Start(timeout, ttl), xs);
      && t.effects <= 1
      && (forall a, m :: Succeeded(t, a, m) ==> t.effects == 1)
      && (forall a, b, m, n :: Succeeded(t, a, m) && Succeeded(t, b, n) ==> m == n)
  {
    hide Enabled, Next, Calm, Allowed, CalmRun, PromptRun, After, Succeeded, Prompt;
    PromptRunsAreCalm(Start(timeout, ttl), xs);
    AtMostOnce(xs, timeout, ttl);
  }

  // ---------------------------------------------------------------- one attempt on its own

  /** `xs` from `s` leads to `t`, calmly. */
  ghost predicate Leads(s: System, xs: seq<Action>, t: System) {
    Allowed(s, xs) && CalmRun(s, xs) && After(s, xs) == t
  }

  lemma LeadsOn(s: System, xs: seq<Action>, t: System, y: Action)
    requires Leads(s, xs, t) && Enabled(t, y) && Calm(t, y)
    ensures Leads(s, xs + [y], Next(t, y))
  {
    hide Allowed, CalmRun, After, Enabled, Next, Calm;
    OneStep(t, y);
    RunPlus(s, xs, [y]);
  }

  lemma LeadsNowhere(s: System)
    ensures Leads(s, [], s)
  {
  }

  /** A key nobody has: an attempt on its own runs the command, and whatever status its route returns is stored and answered. */
  lemma RunsAlone(s: System, hash: string, status: int) returns (n: nat, xs: seq<Action>, t: System)
    requires s.row.None?
    ensures n !in s.attempts && Leads(s, xs, t) && n in t.attempts && t.attempts[n].phase == Over(Some(Success(status)))
    ensures t.effects == s.effects + 1 && t.row.Some? && t.row.value.hash == hash && t.row.value.done == Some(status)
    ensures forall b :: b in s.attempts ==> b in t.attempts && t.attempts[b] == s.attempts[b]
  {
    hide Leads;
    n := Unused(s.attempts);
    LeadsNowhere(s);
    var s1 := Next(s, Arrive(n, hash));
    LeadsOn(s, [], s, Arrive(n, hash));
    var s2 := Next(s1, Reserve(n));
    LeadsOn(s, [] + [Arrive(n, hash)], s1, Reserve(n));
    var s3 := Next(s2, Act(n, status));
    LeadsOn(s, [] + [Arrive(n, hash)] + [Reserve(n)], s2, Act(n, status));
    t := Next(s3, Store(n));
    LeadsOn(s, [] + [Arrive(n, hash)] + [Reserve(n)] + [Act(n, status)], s3, Store(n));
    xs := [] + [Arrive(n, hash)] + [Reserve(n)] + [Act(n, status)] + [Store(n)];
  }

  /** One that fails on its own leaves no trace but its answer. */
  lemma FailsAlone(s: System, hash: string) returns (n: nat, xs: seq<Action>, t: System)
    requires s.row.None?
    ensures n !in s.attempts && Leads(s, xs, t) && n in t.attempts && t.attempts[n].phase == Over(Some(Failure))
    ensures t.effects == s.effects && t.row.None? && forall b :: b in s.attempts ==> b in t.attempts && t.attempts[b] == s.attempts[b]
  {
    hide Leads;
    n := Unused(s.attempts);
    LeadsNowhere(s);
    var s1 := Next(s, Arrive(n, hash));
    LeadsOn(s, [], s, Arrive(n, hash));
    var s2 := Next(s1, Reserve(n));
    LeadsOn(s, [] + [Arrive(n, hash)], s1, Reserve(n));
    t := Next(s2, Fail(n));
    LeadsOn(s, [] + [Arrive(n, hash)] + [Reserve(n)], s2, Fail(n));
    xs := [] + [Arrive(n, hash)] + [Reserve(n)] + [Fail(n)];
  }

  /** A repeat is answered from the record, or refused when it is another request. */
  lemma RepeatsAlone(s: System, hash: string) returns (n: nat, xs: seq<Action>, t: System)
    requires s.row.Some? && s.row.value.done.Some?
    ensures n !in s.attempts && Leads(s, xs, t) && n in t.attempts
    ensures t.attempts[n].phase == Over(Some(if s.row.value.hash == hash then Replayed(s.row.value.done.value) else Reused))
    ensures t.effects == s.effects && t.row == s.row && forall b :: b in s.attempts ==> b in t.attempts && t.attempts[b] == s.attempts[b]
  {
    hide Leads;
    n := Unused(s.attempts);
    LeadsNowhere(s);
    var s1 := Next(s, Arrive(n, hash));
    LeadsOn(s, [], s, Arrive(n, hash));
    t := Next(s1, Look(n));
    LeadsOn(s, [] + [Arrive(n, hash)], s1, Look(n));
    xs := [] + [Arrive(n, hash)] + [Look(n)];
  }

  /** A reservation abandoned before it had any effect does not block the key for ever: after the timeout a repeat runs the command. */
  lemma AbandonedRecovers(s: System, status: int) returns (n: nat, xs: seq<Action>, t: System)
    requires Invariant(s) && Quiet(s) && s.row.Some? && s.now > s.row.value.created + s.timeout
    ensures Leads(s, xs, t) && t.effects == 1 && Succeeded(t, n, status)
  {
    hide Leads, Invariant;
    assert s.row.value.done.None? by { QuietIsUndone(s); }
    n := Unused(s.attempts);
    var hash := s.row.value.hash;
    LeadsNowhere(s);
    var s1 := Next(s, Arrive(n, hash));
    LeadsOn(s, [], s, Arrive(n, hash));
    var s2 := Next(s1, Look(n));
    LeadsOn(s, [] + [Arrive(n, hash)], s1, Look(n));
    var s3 := Next(s2, TakeOver(n));
    assert Quiet(s2) by { forall b ensures !Holder(s2, b) { assert !Holder(s, b); } }
    LeadsOn(s, [] + [Arrive(n, hash)] + [Look(n)], s2, TakeOver(n));
    var s4 := Next(s3, Act(n, status));
    LeadsOn(s, [] + [Arrive(n, hash)] + [Look(n)] + [TakeOver(n)], s3, Act(n, status));
    t := Next(s4, Store(n));
    LeadsOn(s, [] + [Arrive(n, hash)] + [Look(n)] + [TakeOver(n)] + [Act(n, status)], s4, Store(n));
    xs := [] + [Arrive(n, hash)] + [Look(n)] + [TakeOver(n)] + [Act(n, status)] + [Store(n)];
  }

  lemma QuietIsUndone(s: System)
    requires Invariant(s) && Quiet(s)
    ensures s.row.Some? ==> s.row.value.done.None?
  {
  }
}
