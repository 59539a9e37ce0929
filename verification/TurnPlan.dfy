/**
  Validation of turn coordination plans (protocol crate) and of turn candidates
  (runtime), and what an accepted plan means for every schedule of its work.
 */
module TurnPlan {
  import opened Contracts
  import opened Graphs
  import opened TurnGraphs
  import SigningBytes
  import Unicode

  datatype FailurePolicy = ReportOnly | ReportAndOfferRecovery | CompensateThenReport | Escalate

  datatype ProgressPolicy = Silent | AcknowledgeOnly | StreamStatus

  /** What the record digest is taken over; the digest itself is this term. */
  datatype PlanDigest = PlanDigest(
    metadata: Metadata, mode: TurnMode, responses: seq<ContractRef>, actions: seq<ContractRef>, dependencies: seq<Edge<ContractRef>>,
    gates: seq<TurnGate>, failure: FailurePolicy, progress: ProgressPolicy, rationale: string)

  datatype Plan = Plan(
    metadata: Metadata,
    mode: TurnMode,
    responses: seq<ContractRef>,
    actions: seq<ContractRef>,
    dependencies: seq<Edge<ContractRef>>,
    gates: seq<TurnGate>,
    failure: FailurePolicy,
    progress: ProgressPolicy,
    rationale: string,
    recordDigest: PlanDigest)
  {
    function Known(): set<ContractRef> {
      (set r | r in responses) + (set a | a in actions)
    }

    function Digest(): PlanDigest {
      PlanDigest(metadata, mode, responses, actions, dependencies, gates, failure, progress, rationale)
    }
  }

  const MAX_TEXT_BYTES: nat := 4_096

  predicate IsControl(c: char) {
    c as int < 32 || 127 <= c as int < 160
  }

  /** Not blank, at most 4,096 bytes of UTF-8, no control characters. */
  predicate RequiredText(s: string) {
    !SigningBytes.Blank(s) && |Unicode.Utf8(s)| <= MAX_TEXT_BYTES && forall i :: 0 <= i < |s| ==> !IsControl(s[i])
  }

  predicate RespondsBeforeActing(mode: TurnMode) {
    mode.RespondThenAct? || mode.RespondThenConfirmThenAct? || mode.AcknowledgeThenRun?
  }

  /** The checks that need no graph search. */
  predicate PlanShapeValid(plan: Plan) {
    && plan.metadata.Valid()
    && plan.metadata.kind.TurnCoordinationKind?
    && RequiredText(plan.rationale)
    && plan.responses != []
    && (forall r :: r in plan.responses ==> r.kind.ResponseKind?)
    && (forall a :: a in plan.actions ==> a.kind.ActionKind?)
    && (plan.mode.RespondOnly? <==> plan.actions == [])
    && (plan.mode.RespondThenConfirmThenAct? <==> exists g :: g in plan.gates && g.kind.UserAuthorization?)
    && (forall k :: k in plan.Known() ==> k in plan.metadata.dependencies)
    && (forall e :: e in plan.dependencies ==>
          && e.before.Valid() && e.after.Valid() && e.before != e.after
          && e.before in plan.Known() && e.after in plan.Known())
  }

  predicate GatesValid(plan: Plan) {
    && (forall g :: g in plan.gates ==>
          && g.requiredBefore.Valid() && g.requiredBefore in plan.Known()
          && (g.kind.UserAuthorization? ==> g.requiredBefore.kind.ActionKind?))
    && (plan.mode.RespondThenConfirmThenAct? ==>
          forall a :: a in plan.actions ==> TurnGate(UserAuthorization, a) in plan.gates)
  }

  /** Some member of `sources` leads to `target` along the plan's dependencies. */
  ghost predicate ReachedFromSome(edges: seq<Edge<ContractRef>>, sources: seq<ContractRef>, target: ContractRef) {
    exists s :: s in sources && Reaches(EdgeSet(edges), s, target)
  }

  ghost predicate PlanValid(plan: Plan) {
    && PlanShapeValid(plan)
    && Acyclic(EdgeSet(plan.dependencies))
    && GatesValid(plan)
    && (RespondsBeforeActing(plan.mode) ==>
          forall a :: a in plan.actions ==> ReachedFromSome(plan.dependencies, plan.responses, a))
    && (plan.mode.ActThenRespond? ==>
          forall r :: r in plan.responses ==> ReachedFromSome(plan.dependencies, plan.actions, r))
    && plan.recordDigest == plan.Digest()
  }

  method SomePathExists(
    sources: seq<ContractRef>, target: ContractRef, edges: seq<Edge<ContractRef>>) returns (found: bool)
    ensures found <==> ReachedFromSome(edges, sources, target)
  {
    for k := 0 to |sources|
      invariant forall i :: 0 <= i < k ==> !Reaches(EdgeSet(edges), sources[i], target)
    {
      var reached := DependencyPathExists(sources[k], target, edges);
      if reached {
        return true;
      }
    }
    return false;
  }

  method EachReached(
    sources: seq<ContractRef>, targets: seq<ContractRef>, edges: seq<Edge<ContractRef>>) returns (all: bool)
    ensures all <==> forall t :: t in targets ==> ReachedFromSome(edges, sources, t)
  {
    for k := 0 to |targets|
      invariant forall i :: 0 <= i < k ==> ReachedFromSome(edges, sources, targets[i])
    {
      var reached := SomePathExists(sources, targets[k], edges);
      if !reached {
        assert targets[k] in targets;
        return false;
      }
    }
    return true;
  }

  /** Accepts a plan exactly when it is valid in the sense of walks and cycles. */
  method ValidatePlan(plan: Plan) returns (ok: bool)
    ensures ok <==> PlanValid(plan)
  {
    if !PlanShapeValid(plan) {
      return false;
    }
    var acyclic := DependencyGraphIsAcyclic(plan.Known(), plan.dependencies);
    if !acyclic || !GatesValid(plan) {
      return false;
    }
    if RespondsBeforeActing(plan.mode) {
      var reached := EachReached(plan.responses, plan.actions, plan.dependencies);
      if !reached {
        return false;
      }
    }
    if plan.mode.ActThenRespond? {
      var reached := EachReached(plan.actions, plan.responses, plan.dependencies);
      if !reached {
        return false;
      }
    }
    return plan.recordDigest == plan.Digest();
  }

  /** A schedule runs every response and action once and respects the dependencies. */
  ghost predicate IsSchedule(plan: Plan, order: seq<ContractRef>) {
    IsLinearExtension(EdgeSet(plan.dependencies), plan.Known(), order)
  }

  /** `later` comes after some member of `sources`. */
  ghost predicate FollowsSome(order: seq<ContractRef>, sources: seq<ContractRef>, later: ContractRef) {
    exists i, j :: 0 <= i < j < |order| && order[i] in sources && order[j] == later
  }

  /** An accepted plan can be scheduled. */
  lemma ValidPlanHasSchedule(plan: Plan) returns (order: seq<ContractRef>)
    requires PlanValid(plan)
    ensures IsSchedule(plan, order)
  {
    order := LinearExtensionExists(EdgeSet(plan.dependencies), plan.Known());
  }

  lemma ReachedComesLater(plan: Plan, order: seq<ContractRef>, sources: seq<ContractRef>, target: ContractRef)
    requires PlanShapeValid(plan) && IsSchedule(plan, order)
    requires ReachedFromSome(plan.dependencies, sources, target)
    ensures FollowsSome(order, sources, target)
  {
    var s :| s in sources && Reaches(EdgeSet(plan.dependencies), s, target);
    ReachableComesLater(EdgeSet(plan.dependencies), plan.Known(), order, s, target);
  }

  /** Every schedule of an accepted plan keeps the order its mode promises. */
  lemma ValidPlanConstrainsSchedules(plan: Plan, order: seq<ContractRef>)
    requires PlanValid(plan) && IsSchedule(plan, order)
    ensures RespondsBeforeActing(plan.mode) ==>
              forall a :: a in plan.actions ==> FollowsSome(order, plan.responses, a)
    ensures plan.mode.ActThenRespond? ==>
              forall r :: r in plan.responses ==> FollowsSome(order, plan.actions, r)
    ensures plan.mode.RespondThenConfirmThenAct? ==>
              forall a :: a in plan.actions ==> TurnGate(UserAuthorization, a) in plan.gates
    ensures plan.mode.RespondOnly? ==> forall v :: v in order ==> v in plan.responses
  {
    if RespondsBeforeActing(plan.mode) {
      forall a | a in plan.actions
        ensures FollowsSome(order, plan.responses, a)
      {
        ReachedComesLater(plan, order, plan.responses, a);
      }
    }
    if plan.mode.ActThenRespond? {
      forall r | r in plan.responses
        ensures FollowsSome(order, plan.actions, r)
      {
        ReachedComesLater(plan, order, plan.actions, r);
      }
    }
  }

  /**
    With no walk from any source to `target`, some schedule runs `target` before every
    source: first everything that leads to it, then `target`, then the rest.
   */
  lemma UnreachedCanRunFirst(
    plan: Plan, sources: seq<ContractRef>, target: ContractRef) returns (order: seq<ContractRef>)
    requires Acyclic(EdgeSet(plan.dependencies))
    requires target in plan.Known() && target !in sources
    requires !ReachedFromSome(plan.dependencies, sources, target)
    ensures IsSchedule(plan, order) && !FollowsSome(order, sources, target)
  {
    var edges := EdgeSet(plan.dependencies);
    var first := Ancestors(edges, plan.Known(), target) + {target};
    var front := LinearExtensionExists(edges, first);
    var back := LinearExtensionExists(edges, plan.Known() - first);
    order := front + back;
    forall e | e in edges && e.before in plan.Known() && e.after in first
      ensures e.before in first
    {
      ReachesByEdge(edges, e.before, e.after);
      if e.after != target {
        ReachesTransitive(edges, e.before, e.after, target);
      }
    }
    JoinedExtension(edges, plan.Known(), first, front, back);
    assert target in front;
    forall i, j | 0 <= i < j < |order| && order[j] == target
      ensures order[i] !in sources
    {
      var k :| 0 <= k < |front| && front[k] == target;
      assert order[k] == target;
      assert order[i] == front[i] && front[i] in front;
    }
  }

  /**
    The path checks are exact: for a well-shaped acyclic plan they accept precisely when
    every schedule runs each of `targets` after some member of `sources`.
   */
  lemma PathCheckIsExact(plan: Plan, sources: seq<ContractRef>, targets: seq<ContractRef>)
    requires PlanShapeValid(plan) && Acyclic(EdgeSet(plan.dependencies))
    requires (sources == plan.responses && targets == plan.actions) || (sources == plan.actions && targets == plan.responses)
    ensures (forall t :: t in targets ==> ReachedFromSome(plan.dependencies, sources, t))
       <==> forall order, t :: IsSchedule(plan, order) && t in targets ==> FollowsSome(order, sources, t)
  {
    forall order, t | IsSchedule(plan, order) && t in targets && ReachedFromSome(plan.dependencies, sources, t)
      ensures FollowsSome(order, sources, t)
    {
      ReachedComesLater(plan, order, sources, t);
    }
    forall t | t in targets && !ReachedFromSome(plan.dependencies, sources, t)
      ensures exists order :: IsSchedule(plan, order) && !FollowsSome(order, sources, t)
    {
      var order := UnreachedCanRunFirst(plan, sources, t);
    }
  }
}
