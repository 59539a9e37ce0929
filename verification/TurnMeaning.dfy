/**
  What it means that a turn plan is accepted, in terms of the orders in which its work can
  run: a schedule exists, and every schedule keeps what the plan's mode promises.
 */
module TurnMeaning {
  import opened Contracts
  import opened Graphs
  import opened TurnGraphs
  import opened TurnPlan
  import SigningBytes
  import Unicode

  /** However the work is scheduled, `later` comes after one of `sources`. */
  ghost predicate AlwaysAfter(plan: Plan, sources: seq<ContractRef>, later: ContractRef) {
    forall order :: IsSchedule(plan, order) ==> FollowsSome(order, sources, later)
  }

  ghost predicate EachAfter(plan: Plan, sources: seq<ContractRef>, work: seq<ContractRef>) {
    forall w :: w in work ==> AlwaysAfter(plan, sources, w)
  }

  /** What each mode promises about every schedule of the turn. */
  ghost predicate KeepsPromise(plan: Plan) {
    match plan.mode
    case RespondOnly => plan.actions == []
    case ActThenRespond => plan.actions != [] && EachAfter(plan, plan.actions, plan.responses)
    case RespondThenAct => plan.actions != [] && EachAfter(plan, plan.responses, plan.actions)
    case AcknowledgeThenRun => plan.actions != [] && EachAfter(plan, plan.responses, plan.actions)
    case RespondThenConfirmThenAct =>
      && plan.actions != [] && EachAfter(plan, plan.responses, plan.actions)
      && forall a :: a in plan.actions ==> TurnGate(UserAuthorization, a) in plan.gates
    case Parallel => plan.actions != []
    case StreamProgressThenFinal => plan.actions != []
  }

  predicate IsWork(plan: Plan, ref: ContractRef) {
    ref in plan.responses || ref in plan.actions
  }

  /** A gate stands before the plan's own work, and the user is asked only to authorize actions of a plan that confirms. */
  predicate GateFits(plan: Plan, gate: TurnGate) {
    && gate.requiredBefore.Valid() && IsWork(plan, gate.requiredBefore)
    && (gate.kind == UserAuthorization ==>
          plan.mode == RespondThenConfirmThenAct && gate.requiredBefore.kind == ActionKind)
  }

  /** Printable within 4,096 bytes, and more than white space. */
  predicate Explained(text: string) {
    && (exists c :: c in text && !SigningBytes.IsWhitespace(c))
    && |Unicode.Utf8(text)| <= 4_096
    && forall c :: c in text ==> ' ' <= c && !(0x7F <= c as int <= 0x9F)
  }

  /** The record is about coordinating a turn, and names its work as responses, actions and dependencies. */
  ghost predicate Recorded(plan: Plan) {
    && plan.metadata.Valid() && plan.metadata.kind == TurnCoordinationKind
    && Explained(plan.rationale)
    && plan.responses != []
    && (forall r :: r in plan.responses ==> r.kind == ResponseKind && r in plan.metadata.dependencies)
    && (forall a :: a in plan.actions ==> a.kind == ActionKind && a in plan.metadata.dependencies)
    && (forall e :: e in plan.dependencies ==>
          && e.before != e.after
          && e.before.Valid() && IsWork(plan, e.before) && e.after.Valid() && IsWork(plan, e.after))
  }

  ghost predicate Schedulable(plan: Plan) {
    exists order :: IsSchedule(plan, order)
  }

  lemma WorkIsKnown(plan: Plan)
    ensures forall ref :: IsWork(plan, ref) <==> ref in plan.Known()
  {
  }

  lemma ExplainedIsRequired(text: string)
    ensures Explained(text) <==> RequiredText(text)
  {
    hide SigningBytes.IsWhitespace, Unicode.Utf8;
    assert forall c :: c in text ==> exists i :: 0 <= i < |text| && text[i] == c;
    assert forall i :: 0 <= i < |text| ==> text[i] in text;
  }

  lemma RecordedIsShape(plan: Plan)
    requires forall gate :: gate in plan.gates ==> GateFits(plan, gate)
    requires plan.mode.RespondOnly? <==> plan.actions == []
    requires plan.mode.RespondThenConfirmThenAct? ==> forall a :: a in plan.actions ==> TurnGate(UserAuthorization, a) in plan.gates
    ensures Recorded(plan) <==> PlanShapeValid(plan)
  {
    hide RequiredText, Explained, Metadata.Valid, ContractRef.Valid;
    ExplainedIsRequired(plan.rationale);
    WorkIsKnown(plan);
    if plan.mode.RespondThenConfirmThenAct? {
      assert TurnGate(UserAuthorization, plan.actions[0]) in plan.gates;
    }
  }

  lemma GatesFitOrNot(plan: Plan)
    requires PlanShapeValid(plan)
    ensures
      (&& (forall gate :: gate in plan.gates ==> GateFits(plan, gate))
       && (plan.mode.RespondThenConfirmThenAct? ==> forall a :: a in plan.actions ==> TurnGate(UserAuthorization, a) in plan.gates))
      <==> GatesValid(plan)
  {
    hide RequiredText, Metadata.Valid, ContractRef.Valid;
    WorkIsKnown(plan);
  }

  lemma ScheduledOrCyclic(plan: Plan)
    requires PlanShapeValid(plan)
    ensures Schedulable(plan) <==> Acyclic(EdgeSet(plan.dependencies))
  {
    hide RequiredText, Metadata.Valid, ContractRef.Valid, Acyclic;
    if Schedulable(plan) {
      var order :| IsSchedule(plan, order);
      LinearExtensionImpliesAcyclic(EdgeSet(plan.dependencies), plan.Known(), order);
    }
    if Acyclic(EdgeSet(plan.dependencies)) {
      var order := LinearExtensionExists(EdgeSet(plan.dependencies), plan.Known());
      assert IsSchedule(plan, order);
    }
  }

  lemma ReachedIsAfter(plan: Plan, sources: seq<ContractRef>, work: seq<ContractRef>)
    requires PlanShapeValid(plan) && Acyclic(EdgeSet(plan.dependencies))
    requires (sources == plan.responses && work == plan.actions) || (sources == plan.actions && work == plan.responses)
    ensures EachAfter(plan, sources, work) <==> forall w :: w in work ==> ReachedFromSome(plan.dependencies, sources, w)
  {
    hide PlanShapeValid, Acyclic, IsSchedule, FollowsSome, ReachedFromSome;
    PathCheckIsExact(plan, sources, work);
  }

  /**
    A plan is accepted exactly when its record and gates are in order, its work can be
    scheduled, every schedule keeps the promise of its mode, and it is sealed as it stands.
   */
  lemma AcceptedExactly(plan: Plan)
    ensures PlanValid(plan) <==>
      && Recorded(plan) && (forall gate :: gate in plan.gates ==> GateFits(plan, gate))
      && Schedulable(plan) && KeepsPromise(plan)
      && plan.recordDigest == PlanDigest(
           plan.metadata, plan.mode, plan.responses, plan.actions, plan.dependencies, plan.gates, plan.failure, plan.progress, plan.rationale)
  {
    hide RequiredText, Explained, Metadata.Valid, ContractRef.Valid, Acyclic, IsSchedule, FollowsSome, ReachedFromSome, EachAfter, Schedulable;
    if PlanShapeValid(plan) {
      GatesFitOrNot(plan);
    }
    if (forall gate :: gate in plan.gates ==> GateFits(plan, gate)) && (KeepsPromise(plan) || PlanValid(plan)) {
      RecordedIsShape(plan);
      if PlanShapeValid(plan) {
        ScheduledOrCyclic(plan);
        if Acyclic(EdgeSet(plan.dependencies)) {
          ReachedIsAfter(plan, plan.responses, plan.actions);
          ReachedIsAfter(plan, plan.actions, plan.responses);
        }
      }
    }
  }
}
