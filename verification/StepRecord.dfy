/**
  The orchestration step record: its transition assigns before it validates, so a failed
  call can still move the record, yet no record moves more than twice its attempts plus one.
 */
module StepRecord {
  import opened Wrappers
  import opened Contracts

  datatype StepState =
    | Pending
    | Running
    | WaitingInput
    | WaitingAuthorization
    | WaitingDependency
    | Succeeded
    | Failed
    | Cancelled
    | TimedOut
    | Invalidated
  {
    predicate IsWaiting() {
      WaitingInput? || WaitingAuthorization? || WaitingDependency?
    }

    predicate MayTransitionTo(next: StepState) {
      match this
      case Pending => next.Running? || next.Cancelled? || next.TimedOut? || next.Invalidated?
      case Running =>
        next.IsWaiting() || next.Succeeded? || next.Failed? || next.Cancelled? || next.TimedOut? || next.Invalidated?
      case WaitingInput => AfterWaiting(next)
      case WaitingAuthorization => AfterWaiting(next)
      case WaitingDependency => AfterWaiting(next)
      case _ => false
    }
  }

  predicate AfterWaiting(next: StepState) {
    next.Running? || next.Failed? || next.Cancelled? || next.TimedOut? || next.Invalidated?
  }

  datatype WaitCondition =
    | UserInput(ref: Reference)
    | Authorization(contract: ContractRef)
    | Dependency(contract: ContractRef)
    | ProviderReconciliation(ref: Reference)

  datatype StepError = InvalidTransition | InvalidContract

  datatype RetryPolicy = RetryPolicy(maximumAttempts: nat, initialBackoff: nat, maximumBackoff: nat) {
    predicate Valid() {
      maximumAttempts != 0 && initialBackoff != 0 && initialBackoff <= maximumBackoff
    }
  }

  datatype Step = Step(id: Id, state: StepState, attempt: nat, dependencies: seq<Id>, wait: Option<WaitCondition>, policy: RetryPolicy)
  {
    predicate Valid() {
      && policy.Valid() && id != 0
      && (forall i, j :: 0 <= i < j < |dependencies| ==> dependencies[i] != dependencies[j])
      && id !in dependencies && attempt <= policy.maximumAttempts
      && state.IsWaiting() == wait.Some? && (wait.Some? ==> WaitFits(state, wait.value))
    }
  }

  predicate WaitFits(state: StepState, wait: WaitCondition) {
    match state
    case WaitingInput => wait.UserInput?
    case WaitingAuthorization => wait.Authorization?
    case WaitingDependency => wait.Dependency? || wait.ProviderReconciliation?
    case _ => false
  }

  const MAX_ATTEMPT: nat := 0xFFFF_FFFF

  /** The checks made before anything is assigned. */
  predicate Starts(s: Step, next: StepState, wait: Option<WaitCondition>) {
    && s.state.MayTransitionTo(next)
    && next.IsWaiting() == wait.Some?
    && (next.Running? ==> s.attempt < MAX_ATTEMPT && s.attempt + 1 <= s.policy.maximumAttempts)
  }

  function Moved(s: Step, next: StepState, wait: Option<WaitCondition>): Step {
    s.(state := next, wait := wait, attempt := if next.Running? then s.attempt + 1 else s.attempt)
  }

  class Record {
    var step: Step

    constructor (id: Id, dependencies: seq<Id>, policy: RetryPolicy)
      ensures step == Step(id, Pending, 0, dependencies, None, policy)
    {
      step := Step(id, Pending, 0, dependencies, None, policy);
    }

    /** Assigns attempt, state and wait condition in turn, and validates only then. */
    method Transition(next: StepState, wait: Option<WaitCondition>) returns (r: Result<(), StepError>)
      modifies this
      ensures step == if Starts(old(step), next, wait) then Moved(old(step), next, wait) else old(step)
      ensures r.Ok? <==> Starts(old(step), next, wait) && step.Valid()
    {
      if !step.state.MayTransitionTo(next) {
        return Err(InvalidTransition);
      }
      if next.IsWaiting() != wait.Some? {
        return Err(InvalidContract);
      }
      if next.Running? {
        if step.attempt >= MAX_ATTEMPT || step.attempt + 1 > step.policy.maximumAttempts {
          return Err(InvalidTransition);
        }
        step := step.(attempt := step.attempt + 1);
      }
      step := step.(state := next);
      step := step.(wait := wait);
      r := if step.Valid() then Ok(()) else Err(InvalidContract);
    }
  }

  /** A call from a valid record fails and still moves it exactly when the wait condition is of the wrong kind. */
  lemma FailedCallMoves(s: Step, next: StepState, wait: Option<WaitCondition>)
    requires s.Valid()
    ensures
      (Starts(s, next, wait) && !Moved(s, next, wait).Valid())
      <==> (s.state.MayTransitionTo(next) && wait.Some? && next.IsWaiting() && !WaitFits(next, wait.value))
  {
  }

  predicate Ended(state: StepState) {
    state in {Succeeded, Failed, Cancelled, TimedOut, Invalidated}
  }

  /**
    Where a valid record can be moved, and as what: never out of an end nor back to pending, into
    waiting or success only while running, into running only afresh and within the attempts, into
    failure only once started; and it waits for nothing but what its new state names.
   */
  lemma MovesExactly(s: Step, next: StepState, wait: Option<WaitCondition>)
    requires s.Valid()
    ensures (Starts(s, next, wait) && Moved(s, next, wait).Valid()) <==>
      && !Ended(s.state) && next != Pending
      && (next in {WaitingInput, WaitingAuthorization, WaitingDependency, Succeeded} ==> s.state == Running)
      && (next == Running ==> s.state != Running && s.attempt < s.policy.maximumAttempts && s.attempt < 0xFFFF_FFFF)
      && (next == Failed ==> s.state != Pending)
      && (match wait
          case None => next !in {WaitingInput, WaitingAuthorization, WaitingDependency}
          case Some(UserInput(_)) => next == WaitingInput
          case Some(Authorization(_)) => next == WaitingAuthorization
          case Some(Dependency(_)) => next == WaitingDependency
          case Some(ProviderReconciliation(_)) => next == WaitingDependency)
    ensures Starts(s, next, wait) ==>
      var t := Moved(s, next, wait);
      && t.state == next && t.wait == wait && (t.id, t.dependencies, t.policy) == (s.id, s.dependencies, s.policy)
      && t.attempt == s.attempt + if next == Running then 1 else 0
  {
  }

  // ---------------------------------------------------------------- termination

  /** How many more moves a record can make. */
  function Potential(s: Step): int {
    match s.state
    case Pending => 2 * s.policy.maximumAttempts + 1
    case Running => 2 * (s.policy.maximumAttempts - s.attempt) + 2
    case WaitingInput => 2 * (s.policy.maximumAttempts - s.attempt) + 1
    case WaitingAuthorization => 2 * (s.policy.maximumAttempts - s.attempt) + 1
    case WaitingDependency => 2 * (s.policy.maximumAttempts - s.attempt) + 1
    case _ => 0
  }

  datatype Call = Call(next: StepState, wait: Option<WaitCondition>)

  function AfterCalls(s: Step, calls: seq<Call>): Step {
    if calls == [] then s
    else
      var before := AfterCalls(s, calls[..|calls| - 1]);
      var c := calls[|calls| - 1];
      if Starts(before, c.next, c.wait) then Moved(before, c.next, c.wait) else before
  }

  /** The calls that moved the record, whatever they reported. */
  function Moves(s: Step, calls: seq<Call>): nat {
    if calls == [] then 0
    else
      var before := AfterCalls(s, calls[..|calls| - 1]);
      var c := calls[|calls| - 1];
      Moves(s, calls[..|calls| - 1]) + if Starts(before, c.next, c.wait) then 1 else 0
  }

  lemma {:induction false} MovesAreBounded(s: Step, calls: seq<Call>)
    requires s.attempt <= s.policy.maximumAttempts && (s.state.Pending? ==> s.attempt == 0)
    ensures
      var t := AfterCalls(s, calls);
      && t.policy == s.policy && s.attempt <= t.attempt <= s.policy.maximumAttempts && (t.state.Pending? ==> t.attempt == 0)
      && Moves(s, calls) + Potential(t) <= Potential(s)
  {
    if calls != [] {
      MovesAreBounded(s, calls[..|calls| - 1]);
    }
  }

  /** From its pending state a record moves at most twice its attempts plus one time, over any calls. */
  lemma StepTerminates(id: Id, dependencies: seq<Id>, policy: RetryPolicy, calls: seq<Call>)
    ensures Moves(Step(id, Pending, 0, dependencies, None, policy), calls) <= 2 * policy.maximumAttempts + 1
  {
    var s := Step(id, Pending, 0, dependencies, None, policy);
    MovesAreBounded(s, calls);
  }

  /** The bound is met: wait and run through every attempt, then give up. */
  function Longest(attempts: nat): seq<Call> {
    if attempts == 0 then []
    else Longest(attempts - 1) + [Call(Running, None), Call(WaitingInput, Some(WaitCondition.UserInput("question")))]
  }

  lemma OneMore(s: Step, calls: seq<Call>, c: Call)
    ensures
      var t := AfterCalls(s, calls);
      && AfterCalls(s, calls + [c]) == (if Starts(t, c.next, c.wait) then Moved(t, c.next, c.wait) else t)
      && Moves(s, calls + [c]) == Moves(s, calls) + if Starts(t, c.next, c.wait) then 1 else 0
  {
    assert (calls + [c])[..|calls|] == calls;
  }

  /** One attempt, run and left waiting, moves the record twice. */
  lemma RoundMovesTwice(s: Step, calls: seq<Call>, question: WaitCondition)
    requires
      var t := AfterCalls(s, calls);
      (t.state.Pending? || t.state.WaitingInput?) && t.attempt < t.policy.maximumAttempts && t.attempt < MAX_ATTEMPT
    ensures
      var t, u := AfterCalls(s, calls), AfterCalls(s, calls + [Call(Running, None), Call(WaitingInput, Some(question))]);
      && u.state.WaitingInput? && u.attempt == t.attempt + 1 && u.policy == t.policy
      && Moves(s, calls + [Call(Running, None), Call(WaitingInput, Some(question))]) == Moves(s, calls) + 2
  {
    hide AfterCalls, Moves;
    var run, ask := Call(Running, None), Call(WaitingInput, Some(question));
    OneMore(s, calls, run);
    OneMore(s, calls + [run], ask);
    assert calls + [run, ask] == calls + [run] + [ask];
  }

  lemma {:induction false} BoundIsMet(s: Step, attempts: nat)
    requires s.state.Pending? && s.attempt == 0 && attempts <= s.policy.maximumAttempts <= MAX_ATTEMPT
    ensures var t := AfterCalls(s, Longest(attempts));
      t.attempt == attempts && t.policy == s.policy && (if attempts > 0 then t.state.WaitingInput? else t.state.Pending?)
    ensures Moves(s, Longest(attempts)) == 2 * attempts
    ensures attempts > 0 ==> Moves(s, Longest(attempts) + [Call(Failed, None)]) == 2 * attempts + 1
  {
    hide AfterCalls, Moves, Moved;
    if attempts == 0 {
      NoCalls(s);
    } else {
      BoundIsMet(s, attempts - 1);
      RoundMovesTwice(s, Longest(attempts - 1), WaitCondition.UserInput("question"));
      OneMore(s, Longest(attempts), Call(Failed, None));
    }
  }

  lemma NoCalls(s: Step)
    ensures AfterCalls(s, []) == s && Moves(s, []) == 0
  {
  }
}
