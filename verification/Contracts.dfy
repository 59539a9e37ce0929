/**
  The human-centered contracts: references, revision metadata and the parts of each
  contract that the store and the turn planner read. Contract and run identifiers are
  opaque numbers (0 is the nil identifier); references and digests are strings.
 */
module Contracts {
  import opened Wrappers

  type Reference = string
  type Id = nat

  const MAX_SAFE_WIRE_INTEGER: nat := 9_007_199_254_740_991

  datatype ContractKind =
    | IntentKind
    | DecisionKind
    | TurnCoordinationKind
    | ResponseKind
    | ActionKind
    | ExecutionReceiptKind
    | OutcomeKind
    | HumanModelAssertionKind
    | HumanModelUpdateCandidateKind

  /** The lower-case hexadecimal form of a SHA-256 digest. */
  predicate ValidDigest(value: string) {
    && |value| == 64
    && forall i :: 0 <= i < |value| ==> '0' <= value[i] <= '9' || 'a' <= value[i] <= 'f'
  }

  /** Which contract, over all its revisions. */
  datatype ContractKey = ContractKey(kind: ContractKind, id: Id)

  datatype ContractRef = ContractRef(kind: ContractKind, id: Id, revision: nat, digest: string) {
    function Key(): ContractKey {
      ContractKey(kind, id)
    }

    predicate Valid() {
      id != 0 && 0 < revision <= MAX_SAFE_WIRE_INTEGER && ValidDigest(digest)
    }
  }

  datatype AuthorityContext = AuthorityContext(
    tenant: Reference, actor: Reference, scope: Reference, purpose: Reference)

  datatype Metadata = Metadata(
    kind: ContractKind,
    id: Id,
    runId: Id,
    turnId: Id,
    revision: nat,
    predecessor: Option<ContractRef>,
    authority: AuthorityContext,
    dependencies: seq<ContractRef>,
    policyRevision: Reference,
    validUntil: nat)
  {
    predicate Valid() {
      && id != 0 && runId != 0 && turnId != 0
      && 0 < revision <= MAX_SAFE_WIRE_INTEGER
      && 0 < validUntil <= MAX_SAFE_WIRE_INTEGER
      && (match predecessor
          case None => revision == 1
          case Some(previous) =>
            && previous.kind == kind && previous.id == id
            && previous.revision + 1 == revision && previous.Valid())
      && forall i :: 0 <= i < |dependencies| ==>
           dependencies[i].Valid() && !(dependencies[i].id == id && dependencies[i].revision >= revision)
    }
  }

  // ---------------------------------------------------------------- turn plans

  datatype TurnMode =
    | RespondOnly
    | ActThenRespond
    | RespondThenAct
    | RespondThenConfirmThenAct
    | Parallel
    | AcknowledgeThenRun
    | StreamProgressThenFinal

  datatype GateKind = UserAuthorization | UserInput | PolicyApproval | HumanApprover | Dependency

  datatype TurnGate = TurnGate(kind: GateKind, requiredBefore: ContractRef)
}
