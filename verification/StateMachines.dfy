/** The table-driven state machine shared by the services, and AIMgF's model lifecycle built with it. */
module StateMachines {
  import opened Text

  datatype Transition<S(==), E(==), !C> = Transition(source: S, event: E, target: S, guard: Option<C -> bool>) {
    predicate Fits(s: S, e: E, context: C) {
      source == s && event == e && (guard.Some? ==> guard.value(context))
    }
  }

  /** The target of the first transition that fits, if there is one. */
  function FirstFit<S(==), E(==), C>(table: seq<Transition<S, E, C>>, s: S, e: E, context: C): (r: Option<S>)
    ensures r.Some? ==> exists i :: 0 <= i < |table| && First(table, s, e, context, i) && table[i].target == r.value
    ensures r.None? ==> forall i :: 0 <= i < |table| ==> !table[i].Fits(s, e, context)
    decreases |table|
  {
    if table == [] then None
    else if table[0].Fits(s, e, context) then
      assert First(table, s, e, context, 0);
      Some(table[0].target)
    else
      var r := FirstFit(table[1..], s, e, context);
      assert forall i :: 0 <= i < |table[1..]| ==> table[1..][i] == table[i + 1];
      assert forall i :: 0 <= i < |table[1..]| && First(table[1..], s, e, context, i) ==> First(table, s, e, context, i + 1) by {
        FirstShifts(table, s, e, context);
      }
      r
  }

  predicate First<S(==), E(==), C>(table: seq<Transition<S, E, C>>, s: S, e: E, context: C, i: nat)
    requires i < |table|
  {
    table[i].Fits(s, e, context) && forall j :: 0 <= j < i ==> !table[j].Fits(s, e, context)
  }

  lemma FirstShifts<S, E, C>(table: seq<Transition<S, E, C>>, s: S, e: E, context: C)
    requires table != [] && !table[0].Fits(s, e, context)
    ensures forall i :: 0 <= i < |table[1..]| && First(table[1..], s, e, context, i) ==> First(table, s, e, context, i + 1)
  {
    forall i | 0 <= i < |table[1..]| && First(table[1..], s, e, context, i) ensures First(table, s, e, context, i + 1) {
      forall j | 0 <= j < i + 1 ensures !table[j].Fits(s, e, context) {
        if j > 0 { assert table[1..][j - 1] == table[j]; }
      }
    }
  }

  class StateMachine<S(==), E(==), C> {
    var transitions: seq<Transition<S, E, C>>

    constructor ()
      ensures transitions == []
    {
      transitions := [];
    }

    method Add(source: S, event: E, target: S, guard: Option<C -> bool>)
      modifies this
      ensures transitions == old(transitions) + [Transition(source, event, target, guard)]
    {
      transitions := transitions + [Transition(source, event, target, guard)];
    }

    /** `fire`: the first matching transition whose guard passes wins; `None` stands for `IllegalTransition`. */
    method Fire(current: S, event: E, context: C) returns (r: Option<S>)
      ensures r == FirstFit(transitions, current, event, context)
    {
      assert transitions[0..] == transitions;
      for i := 0 to |transitions|
        invariant FirstFit(transitions[i..], current, event, context) == FirstFit(transitions, current, event, context)
      {
        var t := transitions[i];
        assert transitions[i..][0] == t && transitions[i..][1..] == transitions[i + 1..];
        if t.source == current && t.event == event {
          if t.guard.None? || t.guard.value(context) { return Some(t.target); }
        }
      }
      return None;
    }
  }

  // ---------------------------------------------------------------- the model lifecycle

  datatype State =
    | REGISTERED | TRAINING | TRAINED | VALIDATING | VALIDATED | EMULATING | EMULATED | PENDING_APPROVAL | APPROVED | CERTIFIED
    | PROMOTED | DEPRECATED | RETIRED | FAILED

  datatype Event =
    | CREATE_TRAINING | TRAINING_COMPLETE | TRAINING_FAILED | APPROVE_TRAINING | CREATE_VALIDATION | VALIDATION_COMPLETE
    | VALIDATION_FAILED | APPROVE_VALIDATION | CREATE_EMULATION | EMULATION_COMPLETE | EMULATION_FAILED | SUBMIT_FOR_APPROVAL
    | APPROVE | REJECT | CERTIFY | PROMOTE | ROLLBACK | DEPRECATE | RETIRE

  /** Every edge of the lifecycle. */
  function Edge(s: State, e: Event): Option<State> {
    match (s, e)
    case (REGISTERED, CREATE_TRAINING) => Some(TRAINING)
    case (TRAINING, TRAINING_COMPLETE) => Some(TRAINED)
    case (TRAINING, TRAINING_FAILED) => Some(FAILED)
    case (TRAINED, APPROVE_TRAINING) => Some(TRAINED)
    case (TRAINED, CREATE_VALIDATION) => Some(VALIDATING)
    case (VALIDATING, VALIDATION_COMPLETE) => Some(VALIDATED)
    case (VALIDATING, VALIDATION_FAILED) => Some(FAILED)
    case (VALIDATED, APPROVE_VALIDATION) => Some(VALIDATED)
    case (VALIDATED, CREATE_EMULATION) => Some(EMULATING)
    case (EMULATING, EMULATION_COMPLETE) => Some(EMULATED)
    case (EMULATING, EMULATION_FAILED) => Some(FAILED)
    case (EMULATED, SUBMIT_FOR_APPROVAL) => Some(PENDING_APPROVAL)
    case (PENDING_APPROVAL, APPROVE) => Some(APPROVED)
    case (PENDING_APPROVAL, REJECT) => Some(FAILED)
    case (APPROVED, CERTIFY) => Some(CERTIFIED)
    case (CERTIFIED, PROMOTE) => Some(PROMOTED)
    case (CERTIFIED, DEPRECATE) => Some(DEPRECATED)
    case (CERTIFIED, CREATE_TRAINING) => Some(TRAINING)
    case (PROMOTED, ROLLBACK) => Some(CERTIFIED)
    case (PROMOTED, DEPRECATE) => Some(DEPRECATED)
    case (PROMOTED, CREATE_TRAINING) => Some(TRAINING)
    case (DEPRECATED, RETIRE) => Some(RETIRED)
    case (FAILED, RETIRE) => Some(RETIRED)
    case (FAILED, CREATE_TRAINING) => Some(TRAINING)
    case _ => None
  }

  /** A table holds the edges among `edges`: firing it in any state finds exactly what they say. */
  ghost predicate Holds(table: seq<Transition<State, Event, ()>>, edge: (State, Event) -> Option<State>) {
    forall s, e :: FirstFit(table, s, e, ()) == edge(s, e)
  }

  /** `table` is `before` with one more edge, which counts unless the pair had one. */
  ghost predicate Extends(table: seq<Transition<State, Event, ()>>, before: seq<Transition<State, Event, ()>>, source: State, event: Event, target: State) {
    forall s, e :: FirstFit(table, s, e, ()) == With(FirstFit(before, s, e, ()), s == source && e == event, target)
  }

  function With(found: Option<State>, same: bool, target: State): Option<State> {
    if found.Some? then found else if same then Some(target) else None
  }

  /** Adding the next edge to a table that does not have that pair yet. */
  lemma {:induction false} FirstFitPlus(table: seq<Transition<State, Event, ()>>, t: Transition<State, Event, ()>)
    requires t.guard.None?
    ensures Extends(table + [t], table, t.source, t.event, t.target)
    decreases |table|
  {
    if table == [] {
      assert table + [t] == [t] && [t][1..] == [];
    } else {
      assert (table + [t])[1..] == table[1..] + [t];
      FirstFitPlus(table[1..], t);
    }
  }

  /** `table` is `before` with all the edges of the states in `part`, which had none. */
  ghost predicate Filled(table: seq<Transition<State, Event, ()>>, before: seq<Transition<State, Event, ()>>, part: set<State>) {
    forall s, e :: FirstFit(table, s, e, ()) == if s in part then Edge(s, e) else FirstFit(before, s, e, ())
  }

  ghost predicate Empty(table: seq<Transition<State, Event, ()>>, part: set<State>) {
    forall s, e :: s in part ==> FirstFit(table, s, e, ()).None?
  }

  const EARLY := {REGISTERED, TRAINING, TRAINED}
  const MIDDLE := {VALIDATING, VALIDATED}
  const EMULATION := {EMULATING, EMULATED}
  const APPROVAL := {PENDING_APPROVAL, APPROVED}
  const ENDS := {DEPRECATED, FAILED}

  /** `build_model_lifecycle_fsm` */
  method BuildModelLifecycle() returns (fsm: StateMachine<State, Event, ()>)
    ensures fresh(fsm) && Holds(fsm.transitions, Edge)
  {
    hide FirstFit;
    fsm := new StateMachine();
    NothingFits();
    AddEarly(fsm);
    AddMiddle(fsm);
    AddEmulation(fsm);
    AddApproval(fsm);
    AddCertified(fsm);
    AddPromoted(fsm);
    AddEnds(fsm);
  }

  lemma NothingFits()
    ensures forall s: State, e: Event :: FirstFit<State, Event, ()>([], s, e, ()).None?
  {
  }

  method AddEarly(fsm: StateMachine<State, Event, ()>)
    requires Empty(fsm.transitions, EARLY)
    modifies fsm
    ensures Filled(fsm.transitions, old(fsm.transitions), EARLY)
  {
    hide FirstFit;
    AddEdge(fsm, REGISTERED, CREATE_TRAINING, TRAINING);
    AddEdge(fsm, TRAINING, TRAINING_COMPLETE, TRAINED);
    AddEdge(fsm, TRAINING, TRAINING_FAILED, FAILED);
    AddEdge(fsm, TRAINED, APPROVE_TRAINING, TRAINED);
    AddEdge(fsm, TRAINED, CREATE_VALIDATION, VALIDATING);
  }

  method AddMiddle(fsm: StateMachine<State, Event, ()>)
    requires Empty(fsm.transitions, MIDDLE)
    modifies fsm
    ensures Filled(fsm.transitions, old(fsm.transitions), MIDDLE)
  {
    hide FirstFit;
    AddEdge(fsm, VALIDATING, VALIDATION_COMPLETE, VALIDATED);
    AddEdge(fsm, VALIDATING, VALIDATION_FAILED, FAILED);
    AddEdge(fsm, VALIDATED, APPROVE_VALIDATION, VALIDATED);
    AddEdge(fsm, VALIDATED, CREATE_EMULATION, EMULATING);
  }

  method AddEmulation(fsm: StateMachine<State, Event, ()>)
    requires Empty(fsm.transitions, EMULATION)
    modifies fsm
    ensures Filled(fsm.transitions, old(fsm.transitions), EMULATION)
  {
    hide FirstFit;
    AddEdge(fsm, EMULATING, EMULATION_COMPLETE, EMULATED);
    AddEdge(fsm, EMULATING, EMULATION_FAILED, FAILED);
    AddEdge(fsm, EMULATED, SUBMIT_FOR_APPROVAL, PENDING_APPROVAL);
  }

  method AddApproval(fsm: StateMachine<State, Event, ()>)
    requires Empty(fsm.transitions, APPROVAL)
    modifies fsm
    ensures Filled(fsm.transitions, old(fsm.transitions), APPROVAL)
  {
    hide FirstFit;
    AddEdge(fsm, PENDING_APPROVAL, APPROVE, APPROVED);
    AddEdge(fsm, PENDING_APPROVAL, REJECT, FAILED);
    AddEdge(fsm, APPROVED, CERTIFY, CERTIFIED);
  }

  method AddCertified(fsm: StateMachine<State, Event, ()>)
    requires Empty(fsm.transitions, {CERTIFIED})
    modifies fsm
    ensures Filled(fsm.transitions, old(fsm.transitions), {CERTIFIED})
  {
    hide FirstFit;
    AddEdge(fsm, CERTIFIED, PROMOTE, PROMOTED);
    AddEdge(fsm, CERTIFIED, DEPRECATE, DEPRECATED);
    AddEdge(fsm, CERTIFIED, CREATE_TRAINING, TRAINING);
  }

  method AddPromoted(fsm: StateMachine<State, Event, ()>)
    requires Empty(fsm.transitions, {PROMOTED})
    modifies fsm
    ensures Filled(fsm.transitions, old(fsm.transitions), {PROMOTED})
  {
    hide FirstFit;
    AddEdge(fsm, PROMOTED, ROLLBACK, CERTIFIED);
    AddEdge(fsm, PROMOTED, DEPRECATE, DEPRECATED);
    AddEdge(fsm, PROMOTED, CREATE_TRAINING, TRAINING);
  }

  method AddEnds(fsm: StateMachine<State, Event, ()>)
    requires Empty(fsm.transitions, ENDS)
    modifies fsm
    ensures Filled(fsm.transitions, old(fsm.transitions), ENDS)
  {
    hide FirstFit;
    AddEdge(fsm, DEPRECATED, RETIRE, RETIRED);
    AddEdge(fsm, FAILED, RETIRE, RETIRED);
    AddEdge(fsm, FAILED, CREATE_TRAINING, TRAINING);
  }

  method AddEdge(fsm: StateMachine<State, Event, ()>, source: State, event: Event, target: State)
    modifies fsm
    ensures Extends(fsm.transitions, old(fsm.transitions), source, event, target)
  {
    FirstFitPlus(fsm.transitions, Transition(source, event, target, None));
    fsm.Add(source, event, target, None);
  }
}
