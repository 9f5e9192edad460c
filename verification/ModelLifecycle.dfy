/** One model's lifecycle row, moved by several replicas that read it, fire an event and write it back if nobody was faster. */
module ModelLifecycle {
  import opened Text
  import opened StateMachines

  // ---------------------------------------------------------------- the row and its requests

  /** `other` stands for the columns no lifecycle event reads: the runtime state, the job and deployment handles. */
  datatype Row = Row(state: State, trainingApproved: bool, validationApproved: bool, other: int, version: int)

  datatype Audit = Audit(source: State, target: State, event: Event)
  datatype Certification = Certification(decision: Event, who: string)

  datatype Request =
    | Advance(event: Event, who: Option<string>)  // POST /models/{id}/advance
    | Train(job: int)                            // every way a training run starts
    | Validate(job: int)                         // every way a validation of the model starts
    | Emulate(job: int)
    | JobEnded(event: Event)                     // a run completes, fails or times out
    | Touch(other: int)                          // any other write to the row

  predicate Governance(e: Event) {
    e == SUBMIT_FOR_APPROVAL || e == APPROVE || e == REJECT || e == CERTIFY || e == PROMOTE || e == ROLLBACK
    || e == APPROVE_TRAINING || e == APPROVE_VALIDATION
  }

  predicate Advanceable(e: Event) {
    Governance(e) || e == DEPRECATE || e == RETIRE
  }

  predicate EndsJob(e: Event) {
    e == TRAINING_COMPLETE || e == TRAINING_FAILED || e == VALIDATION_COMPLETE || e == VALIDATION_FAILED
    || e == EMULATION_COMPLETE || e == EMULATION_FAILED
  }

  /** What a request has in its transaction when it comes to commit. */
  datatype Pending = Pending(row: Row, audit: seq<Audit>, certs: seq<Certification>)

  /** `_fire_model_event`; `None` is a refusal, which leaves nothing behind. */
  function Fire(row: Row, e: Event, who: Option<string>): Option<Pending> {
    if Governance(e) && who.None? then None
    else
      var t := Edge(row.state, e);
      if t.None? then None
      else
        var r := row.(state := t.value);
        var r1 := if e == APPROVE_TRAINING then r.(trainingApproved := true)
                  else if e == APPROVE_VALIDATION then r.(validationApproved := true)
                  else if e == CREATE_TRAINING then r.(trainingApproved := false, validationApproved := false)
                  else r;
        Some(Pending(r1, [Audit(row.state, t.value, e)], if Governance(e) then [Certification(e, who.value)] else []))
  }

  /** The handlers, with the gates they put before the event. */
  function Handle(row: Row, r: Request): Option<Pending> {
    match r
    case Advance(e, who) => if Advanceable(e) then Fire(row, e, who) else None
    case Train(job) =>
      if row.state == TRAINING then Some(Pending(row.(other := job), [], []))
      else
        var p := Fire(row, CREATE_TRAINING, None);
        if p.Some? then Some(p.value.(row := p.value.row.(other := job))) else None
    case Validate(job) =>
      if row.state == TRAINED && row.trainingApproved then Fire(row, CREATE_VALIDATION, None) else None
    case Emulate(job) =>
      if row.state == VALIDATED && row.validationApproved then Fire(row, CREATE_EMULATION, None) else None
    case JobEnded(e) => if EndsJob(e) then Fire(row, e, None) else None
    case Touch(other) => Some(Pending(row.(other := other), [], []))
  }

  // ---------------------------------------------------------------- replicas

  datatype Session = Session(loaded: Row, pending: Pending)

  /**
   * The database, the transactions in flight, and, for the statements only, `moves`: the audit rows that were committed together
   * with an UPDATE of the row.
   */
  datatype System = System(row: Row, audit: seq<Audit>, certs: seq<Certification>, open: map<nat, Session>, moves: seq<Audit>)

  function FirstRow(): Row {
    Row(REGISTERED, false, false, 0, 1)
  }

  function Start(): System {
    System(FirstRow(), [], [], map[], [])
  }

  datatype Action = Begin(replica: nat, request: Request) | Commit(replica: nat) | Abort(replica: nat)

  ghost predicate Enabled(s: System, a: Action) {
    match a
    case Begin(n, r) => n !in s.open && Handle(s.row, r).Some?
    case Commit(n) => n in s.open
    case Abort(n) => n in s.open
  }

  /** The ORM writes the row only when a column changed, and only if nobody else wrote it since it was read. */
  predicate Updates(x: Session) {
    x.pending.row != x.loaded
  }

  ghost function Next(s: System, a: Action): System
    requires Enabled(s, a)
  {
    match a
    case Begin(n, r) => s.(open := s.open[n := Session(s.row, Handle(s.row, r).value)])
    case Abort(n) => s.(open := s.open - {n})
    case Commit(n) =>
      var x := s.open[n];
      var closed := s.(open := s.open - {n});
      if !Updates(x) then closed.(audit := s.audit + x.pending.audit, certs := s.certs + x.pending.certs)
      else if s.row.version != x.loaded.version then closed
      else
        closed.(row := x.pending.row.(version := s.row.version + 1), audit := s.audit + x.pending.audit,
                certs := s.certs + x.pending.certs, moves := s.moves + x.pending.audit)
  }

  ghost predicate Allowed(s: System, acts: seq<Action>)
    decreases |acts|
  {
    acts == [] || (Enabled(s, acts[0]) && Allowed(Next(s, acts[0]), acts[1..]))
  }

  ghost function After(s: System, acts: seq<Action>): System
    requires Allowed(s, acts)
    decreases |acts|
  {
    if acts == [] then s else After(Next(s, acts[0]), acts[1..])
  }

  // ---------------------------------------------------------------- what has been seen in the present training cycle

  /** The events since the latest CREATE_TRAINING, that one included. */
  function Seen(log: seq<Audit>): set<Event>
    decreases |log|
  {
    if log == [] then {}
    else
      var e := log[|log| - 1].event;
      if e == CREATE_TRAINING then {e} else Seen(log[..|log| - 1]) + {e}
  }

  /** How far along the path a state is. */
  function Stage(s: State): nat {
    match s
    case TRAINING => 1
    case TRAINED => 2
    case VALIDATING => 3
    case VALIDATED => 4
    case EMULATING => 5
    case EMULATED => 6
    case PENDING_APPROVAL => 7
    case APPROVED => 8
    case CERTIFIED => 9
    case DEPRECATED => 9
    case PROMOTED => 10
    case _ => 0
  }

  /** From which stage on an event must have happened in the present cycle; the other events are never required. */
  function NeededFrom(e: Event): nat
    ensures NeededFrom(e) >= 1
  {
    match e
    case CREATE_TRAINING => 1
    case TRAINING_COMPLETE => 2
    case APPROVE_TRAINING => 3
    case CREATE_VALIDATION => 3
    case VALIDATION_COMPLETE => 4
    case APPROVE_VALIDATION => 5
    case CREATE_EMULATION => 5
    case EMULATION_COMPLETE => 6
    case SUBMIT_FOR_APPROVAL => 7
    case APPROVE => 8
    case CERTIFY => 9
    case PROMOTE => 10
    case _ => 11
  }

  /** Everything a state requires is among the events seen. */
  ghost predicate Earned(s: State, seen: set<Event>) {
    forall e :: NeededFrom(e) <= Stage(s) ==> e in seen
  }

  // ---------------------------------------------------------------- the invariant

  /** A legal run of the machine from REGISTERED to `last`, each row starting where the one before ended. */
  ghost predicate Chains(log: seq<Audit>, last: State)
    decreases |log|
  {
    if log == [] then last == REGISTERED
    else
      var a := log[|log| - 1];
      a.target == last && Edge(a.source, a.event) == Some(a.target) && Chains(log[..|log| - 1], a.source)
  }

  /** The row agrees with the moves that made it. */
  ghost predicate RowFits(row: Row, moves: seq<Audit>) {
    && Chains(moves, row.state)
    && Earned(row.state, Seen(moves))
    && (row.trainingApproved <==> APPROVE_TRAINING in Seen(moves))
    && (row.validationApproved <==> APPROVE_VALIDATION in Seen(moves))
  }

  function Decisions(log: seq<Audit>): seq<Event>
    decreases |log|
  {
    if log == [] then []
    else Decisions(log[..|log| - 1]) + (if Governance(log[|log| - 1].event) then [log[|log| - 1].event] else [])
  }

  function Events(certs: seq<Certification>): seq<Event> {
    seq(|certs|, i requires 0 <= i < |certs| => certs[i].decision)
  }

  /** A transaction holds what some request made of the row it loaded. */
  ghost predicate Honest(x: Session) {
    exists r :: Handle(x.loaded, r) == Some(x.pending)
  }

  ghost predicate Invariant(s: System) {
    && RowFits(s.row, s.moves)
    && Seen(s.moves) <= Seen(s.audit)
    && Decisions(s.audit) == Events(s.certs)
    && forall n :: n in s.open ==>
      && Honest(s.open[n])
      && s.open[n].loaded.version <= s.row.version
      && (s.open[n].loaded.version == s.row.version ==> s.open[n].loaded == s.row)
  }

  /** What a request can do to a row it read: nothing but another column, or one legal event with its flags and its gate. */
  lemma HandleShape(row: Row, r: Request)
    requires Handle(row, r).Some?
    ensures var p := Handle(row, r).value;
      && p.row.version == row.version && |p.audit| <= 1
      && (p.audit == [] ==>
            p.certs == [] && p.row.state == row.state && p.row.trainingApproved == row.trainingApproved
            && p.row.validationApproved == row.validationApproved)
      && (p.audit != [] ==>
            && var a := p.audit[0];
            && a.source == row.state && a.target == p.row.state && Edge(row.state, a.event) == Some(p.row.state)
            && p.row.trainingApproved == (a.event == APPROVE_TRAINING || (a.event != CREATE_TRAINING && row.trainingApproved))
            && p.row.validationApproved == (a.event == APPROVE_VALIDATION || (a.event != CREATE_TRAINING && row.validationApproved))
            && (a.event == CREATE_VALIDATION ==> row.trainingApproved)
            && (a.event == CREATE_EMULATION ==> row.validationApproved)
            && Events(p.certs) == if Governance(a.event) then [a.event] else [])
  {
    hide Edge;
    var p := Handle(row, r).value;
    if p.audit == [] { assert Events(p.certs) == []; }
  }

  lemma SeenPlus(log: seq<Audit>, a: Audit)
    ensures Seen(log + [a]) == if a.event == CREATE_TRAINING then {a.event} else Seen(log) + {a.event}
    ensures Decisions(log + [a]) == Decisions(log) + (if Governance(a.event) then [a.event] else [])
    ensures Chains(log + [a], a.target) <==> Edge(a.source, a.event) == Some(a.target) && Chains(log, a.source)
  {
    assert (log + [a])[..|log|] == log;
  }

  /** The one place where the approvals are needed: an edge, its gate and what was seen give what the next state requires. */
  lemma EdgeEarns(s: State, e: Event, t: State, seen: set<Event>)
    requires Edge(s, e) == Some(t) && Earned(s, seen)
    requires e == CREATE_VALIDATION ==> APPROVE_TRAINING in seen
    requires e == CREATE_EMULATION ==> APPROVE_VALIDATION in seen
    ensures Earned(t, if e == CREATE_TRAINING then {e} else seen + {e})
  {
    forall x | NeededFrom(x) <= Stage(t) ensures x in (if e == CREATE_TRAINING then {e} else seen + {e}) {
      if x != e { assert NeededFrom(x) <= Stage(s) || x == APPROVE_TRAINING || x == APPROVE_VALIDATION || e == CREATE_TRAINING; }
    }
  }

  // ---------------------------------------------------------------- every step keeps it

  lemma MoveFits(row: Row, next: Row, a: Audit, moves: seq<Audit>)
    requires RowFits(row, moves) && a.source == row.state && a.target == next.state && Edge(row.state, a.event) == Some(next.state)
    requires next.trainingApproved == (a.event == APPROVE_TRAINING || (a.event != CREATE_TRAINING && row.trainingApproved))
    requires next.validationApproved == (a.event == APPROVE_VALIDATION || (a.event != CREATE_TRAINING && row.validationApproved))
    requires (a.event == CREATE_VALIDATION ==> row.trainingApproved) && (a.event == CREATE_EMULATION ==> row.validationApproved)
    ensures RowFits(next, moves + [a])
  {
    hide Edge, Governance, Seen, Decisions, Chains, Earned;
    SeenPlus(moves, a);
    EdgeEarns(row.state, a.event, a.target, Seen(moves));
  }

  lemma SeenGrows(moves: seq<Audit>, audit: seq<Audit>, a: Audit)
    requires Seen(moves) <= Seen(audit)
    ensures Seen(moves + [a]) <= Seen(audit + [a])
  {
    hide Edge, Governance, Seen, Decisions, Chains;
    SeenPlus(moves, a);
    SeenPlus(audit, a);
  }

  /** A row updated from what it was: the moves grow by the event, if there was one. */
  lemma UpdateKeeps(row: Row, r: Request, moves: seq<Audit>, audit: seq<Audit>, certs: seq<Certification>)
    requires Handle(row, r).Some? && RowFits(row, moves) && Seen(moves) <= Seen(audit) && Decisions(audit) == Events(certs)
    ensures var p := Handle(row, r).value;
      && RowFits(p.row, moves + p.audit) && Seen(moves + p.audit) <= Seen(audit + p.audit)
      && Decisions(audit + p.audit) == Events(certs + p.certs)
  {
    HandleShape(row, r);
    var p := Handle(row, r).value;
    EventsPlus(certs, p.certs);
    if p.audit == [] {
      assert moves + p.audit == moves && audit + p.audit == audit && certs + p.certs == certs;
    } else {
      var a := p.audit[0];
      assert p.audit == [a];
      MoveFits(row, p.row, a, moves);
      SeenGrows(moves, audit, a);
      SeenPlus(audit, a);
    }
    hide Handle, Edge, Governance, Seen, Decisions, Chains, Earned, Events;
  }

  lemma EventsPlus(a: seq<Certification>, b: seq<Certification>)
    ensures Events(a + b) == Events(a) + Events(b)
  {
  }

  /** A transaction that changes no column can only repeat an approval; its audit row takes nothing away. */
  lemma NoUpdateKeeps(row: Row, r: Request, audit: seq<Audit>, certs: seq<Certification>)
    requires Handle(row, r).Some? && Handle(row, r).value.row == row && Decisions(audit) == Events(certs)
    ensures var p := Handle(row, r).value;
      && Seen(audit) <= Seen(audit + p.audit) && Decisions(audit + p.audit) == Events(certs + p.certs)
      && (p.audit != [] ==>
            && p.audit == [Audit(row.state, row.state, p.audit[0].event)]
            && (p.audit[0].event == APPROVE_TRAINING || p.audit[0].event == APPROVE_VALIDATION))
  {
    HandleShape(row, r);
    var p := Handle(row, r).value;
    EventsPlus(certs, p.certs);
    hide Handle, Seen, Decisions, Governance;
    if p.audit == [] {
      assert audit + p.audit == audit && certs + p.certs == certs;
    } else {
      var a := p.audit[0];
      assert p.audit == [a];
      LoopsAreApprovals(row.state, a.event);
      SeenPlus(audit, a);
    }
  }

  lemma LoopsAreApprovals(s: State, e: Event)
    requires Edge(s, e) == Some(s)
    ensures e == APPROVE_TRAINING || e == APPROVE_VALIDATION
  {
  }

  lemma CommitKeeps(s: System, n: nat)
    requires Invariant(s) && n in s.open
    ensures Invariant(Next(s, Commit(n)))
  {
    var x := s.open[n];
    var r :| Handle(x.loaded, r) == Some(x.pending);
    HandleShape(x.loaded, r);
    hide RowFits, Handle, Seen, Decisions, Honest, Governance, Edge;
    if !Updates(x) {
      NoUpdateKeeps(x.loaded, r, s.audit, s.certs);
    } else if s.row.version == x.loaded.version {
      UpdateKeeps(s.row, r, s.moves, s.audit, s.certs);
      VersionAside(x.pending.row, s.row.version + 1, s.moves + x.pending.audit);
    }
  }

  lemma VersionAside(row: Row, version: int, moves: seq<Audit>)
    ensures RowFits(row.(version := version), moves) <==> RowFits(row, moves)
  {
  }

  lemma StepKeeps(s: System, a: Action)
    requires Invariant(s) && Enabled(s, a)
    ensures Invariant(Next(s, a))
  {
    hide RowFits, Handle, Seen, Decisions;
    match a
    case Begin(n, r) => assert Honest(Session(s.row, Handle(s.row, r).value));
    case Abort(n) =>
    case Commit(n) => CommitKeeps(s, n);
  }

  /**
   * However replicas interleave: the committed moves are a legal run from REGISTERED to the present state, and what the state
   * requires, the operators' approvals included, was committed after the latest CREATE_TRAINING, in the moves and in the audit
   * table alike; the certification records are the audit's governance decisions in order.
   */
  lemma {:induction false} Governed(s: System, acts: seq<Action>)
    requires Invariant(s) && Allowed(s, acts)
    ensures Invariant(After(s, acts))
    ensures var t := After(s, acts); Chains(t.moves, t.row.state) && Earned(t.row.state, Seen(t.audit)) && Decisions(t.audit) == Events(t.certs)
    decreases |acts|
  {
    hide Enabled, Next, Chains, Seen, Decisions, NeededFrom, Stage;
    if acts != [] {
      StepKeeps(s, acts[0]);
      Governed(Next(s, acts[0]), acts[1..]);
    }
  }

  /** From a fresh row: no validation without an approved training, no emulation and nothing after it without an approved validation. */
  lemma ApprovalsComeFirst(acts: seq<Action>)
    requires Allowed(Start(), acts)
    ensures var t := After(Start(), acts);
      && (3 <= Stage(t.row.state) ==> APPROVE_TRAINING in Seen(t.audit))
      && (5 <= Stage(t.row.state) ==> APPROVE_VALIDATION in Seen(t.audit))
  {
    hide Invariant, Allowed, After, Chains, Seen, Decisions, Handle;
    StartIsGood();
    Governed(Start(), acts);
    var t := After(Start(), acts);
    assert NeededFrom(APPROVE_TRAINING) == 3 && NeededFrom(APPROVE_VALIDATION) == 5;
  }

  lemma StartIsGood()
    ensures Invariant(Start())
  {
  }

  // ---------------------------------------------------------------- the audit table as a chain

  /** The audit table alone tells a legal run up to the present state. */
  ghost predicate AuditChains(s: System) {
    Chains(s.audit, s.row.state)
  }

  /**
   * A commit keeps the audit table a chain exactly when it does not record a repeated approval over a row that has moved on:
   * repeating an approval changes no column, so the ORM sends no UPDATE and nothing checks the version.
   */
  lemma CommitChains(s: System, n: nat)
    requires Invariant(s) && n in s.open && AuditChains(s)
    ensures var x := s.open[n];
      AuditChains(Next(s, Commit(n))) <==> (Updates(x) || x.pending.audit == [] || x.loaded.state == s.row.state)
  {
    var x := s.open[n];
    var r :| Handle(x.loaded, r) == Some(x.pending);
    HandleShape(x.loaded, r);
    hide Handle, Seen, Decisions, Governance;
    if x.pending.audit == [] {
      assert s.audit + x.pending.audit == s.audit;
    } else {
      var a := x.pending.audit[0];
      assert x.pending.audit == [a];
      SeenPlus(s.audit, a);
      ChainsToOne(s.audit, a.source, s.row.state);
      ChainsEnd(s.audit + [a], s.row.state);
    }
  }

  lemma ChainsToOne(log: seq<Audit>, s: State, t: State)
    requires Chains(log, t)
    ensures Chains(log, s) <==> s == t
  {
  }

  lemma ChainsEnd(log: seq<Audit>, t: State)
    ensures Chains(log, t) && log != [] ==> log[|log| - 1].target == t
  {
  }

  /** Every commit of the run is one that `CommitChains` allows. */
  ghost predicate NoStaleRepeat(s: System, acts: seq<Action>)
    requires Allowed(s, acts)
    decreases |acts|
  {
    acts == [] ||
    ( && (acts[0].Commit? ==>
            var x := s.open[acts[0].replica]; Updates(x) || x.pending.audit == [] || x.loaded.state == s.row.state)
      && NoStaleRepeat(Next(s, acts[0]), acts[1..]))
  }

  /** No state ends the audit table as a legal run. */
  ghost predicate BrokenLog(log: seq<Audit>) {
    forall t :: !Chains(log, t)
  }

  lemma {:induction false} StaysBroken(log: seq<Audit>, more: seq<Audit>)
    requires BrokenLog(log)
    ensures BrokenLog(log + more)
    decreases |more|
  {
    if more == [] {
      assert log + more == log;
    } else {
      var rest, last := more[..|more| - 1], more[|more| - 1];
      StaysBroken(log, rest);
      assert (log + more)[..|log + more| - 1] == log + rest;
    }
  }

  /** A broken audit table stays broken: rows are only appended. */
  lemma {:induction false} NeverHeals(s: System, acts: seq<Action>)
    requires Allowed(s, acts) && BrokenLog(s.audit)
    ensures BrokenLog(After(s, acts).audit)
    decreases |acts|
  {
    hide BrokenLog;
    if acts != [] {
      if acts[0].Commit? { StaysBroken(s.audit, s.open[acts[0].replica].pending.audit); }
      NeverHeals(Next(s, acts[0]), acts[1..]);
    }
  }

  /** A commit that breaks the chain breaks it for good. */
  lemma StaleCommitBreaks(s: System, n: nat)
    requires Invariant(s) && n in s.open && AuditChains(s) && !AuditChains(Next(s, Commit(n)))
    ensures BrokenLog(Next(s, Commit(n)).audit)
  {
    var x := s.open[n];
    var r :| Handle(x.loaded, r) == Some(x.pending);
    HandleShape(x.loaded, r);
    CommitChains(s, n);
    hide Handle, Seen, Decisions, Governance, Invariant;
    var a := x.pending.audit[0];
    assert x.pending.audit == [a];
    ChainsToOne(s.audit, a.source, s.row.state);
    assert (s.audit + [a])[..|s.audit|] == s.audit;
  }

  /** Each audit row of a run starts in the state where the one before ended exactly when no commit of it is a stale repeat. */
  lemma {:induction false} AuditIsARun(s: System, acts: seq<Action>)
    requires Invariant(s) && AuditChains(s) && Allowed(s, acts)
    ensures AuditChains(After(s, acts)) <==> NoStaleRepeat(s, acts)
    decreases |acts|
  {
    hide Invariant, Updates, Handle, Chains;
    if acts != [] {
      var s1 := Next(s, acts[0]);
      StepKeeps(s, acts[0]);
      match acts[0] {
        case Commit(n) => CommitChains(s, n);
        case Begin(n, r) => OthersChain(s, acts[0]);
        case Abort(n) => OthersChain(s, acts[0]);
      }
      if AuditChains(s1) {
        AuditIsARun(s1, acts[1..]);
      } else {
        StaleCommitBreaks(s, acts[0].replica);
        NeverHeals(s1, acts[1..]);
      }
    }
  }

  lemma OthersChain(s: System, a: Action)
    requires Enabled(s, a) && !a.Commit?
    ensures AuditChains(Next(s, a)) <==> AuditChains(s)
  {
  }

  /** Such a repeat can happen: one replica repeats an approval while another starts the validation, and commits second. */
  lemma {:induction false} StaleRepeat(s: System)
    requires s.row.state == TRAINED && s.row.trainingApproved && s.open == map[] && AuditChains(s)
    ensures var acts := [Begin(1, Advance(APPROVE_TRAINING, Some("op"))), Begin(2, Validate(s.row.other)), Commit(2), Commit(1)];
      Allowed(s, acts) && !AuditChains(After(s, acts))
  {
    var one, two := Begin(1, Advance(APPROVE_TRAINING, Some("op"))), Begin(2, Validate(s.row.other));
    var s1 := Next(s, one);
    var s2 := Next(s1, two);
    var s3 := Next(s2, Commit(2));
    var s4 := Next(s3, Commit(1));
    var repeated, started := Audit(TRAINED, TRAINED, APPROVE_TRAINING), Audit(TRAINED, VALIDATING, CREATE_VALIDATION);
    assert s3.row.state == VALIDATING && s3.audit == s.audit + [started];
    assert s4.audit == s3.audit + [repeated] && s4.row.state == VALIDATING;
    ChainsEnd(s4.audit, VALIDATING);
    FourSteps(s, one, two, Commit(2), Commit(1));
  }

  lemma FourSteps(s: System, a: Action, b: Action, c: Action, d: Action)
    requires Enabled(s, a) && Enabled(Next(s, a), b) && Enabled(Next(Next(s, a), b), c) && Enabled(Next(Next(Next(s, a), b), c), d)
    ensures Allowed(s, [a, b, c, d]) && After(s, [a, b, c, d]) == Next(Next(Next(Next(s, a), b), c), d)
  {
    hide Enabled, Next;
    var s3 := Next(Next(Next(s, a), b), c);
    assert [d][1..] == [] && [c, d][1..] == [d] && [b, c, d][1..] == [c, d] && [a, b, c, d][1..] == [b, c, d];
    assert Allowed(Next(s3, d), []) && Allowed(s3, [d]) && Allowed(Next(Next(s, a), b), [c, d]) && Allowed(Next(s, a), [b, c, d]);
    assert After(s3, [d]) == Next(s3, d) && After(Next(Next(s, a), b), [c, d]) == Next(s3, d);
    assert After(Next(s, a), [b, c, d]) == Next(s3, d);
  }

  // ---------------------------------------------------------------- the program

  lemma TableSays(table: seq<Transition<State, Event, ()>>, s: State, e: Event)
    requires Holds(table, Edge)
    ensures FirstFit(table, s, e, ()) == Edge(s, e)
  {
    hide FirstFit, Edge;
  }

  /** One transaction on the row, with the audit rows and records it adds. */
  class Transaction {
    var state: State
    var trainingApproved: bool
    var validationApproved: bool
    var other: int
    const version: int
    var audit: seq<Audit>
    var certs: seq<Certification>
    const fsm: StateMachine<State, Event, ()>

    constructor (row: Row, fsm: StateMachine<State, Event, ()>)
      ensures Now() == row && audit == [] && certs == [] && this.fsm == fsm
    {
      state, trainingApproved, validationApproved, other := row.state, row.trainingApproved, row.validationApproved, row.other;
      version := row.version;
      audit, certs := [], [];
      this.fsm := fsm;
    }

    function Now(): Row
      reads this
    {
      Row(state, trainingApproved, validationApproved, other, version)
    }

    /** `_fire_model_event` */
    method FireModelEvent(e: Event, who: Option<string>) returns (ok: bool)
      requires Holds(fsm.transitions, Edge)
      modifies this
      ensures var p := Fire(old(Now()), e, who);
        && ok == p.Some?
        && Now() == (if ok then p.value.row else old(Now()))
        && audit == old(audit) + (if ok then p.value.audit else [])
        && certs == old(certs) + (if ok then p.value.certs else [])
    {
      hide Edge, Governance, FirstFit, Holds;
      if Governance(e) && who.None? { return false; }
      var source := state;
      var target := fsm.Fire(source, e, ());
      TableSays(fsm.transitions, source, e);
      if target.None? { return false; }
      state := target.value;
      audit := audit + [Audit(source, target.value, e)];
      if Governance(e) { certs := certs + [Certification(e, who.value)]; }
      if e == APPROVE_TRAINING {
        trainingApproved := true;
      } else if e == APPROVE_VALIDATION {
        validationApproved := true;
      } else if e == CREATE_TRAINING {
        trainingApproved, validationApproved := false, false;
      }
      return true;
    }
  }
}
