/**
  What a state that the validator accepts says, record by record: what an attempt was
  permitted for, what a recorded receipt answers, and what actions and outcomes rest on.
  Every reachable state is such a state.
 */
module StoreMeaning {
  import opened Wrappers
  import opened Contracts
  import opened SigningBytes
  import opened StoreModel
  import opened StoreOperations
  import opened StoreSnapshot
  import opened StoreCommit
  import opened StoreSafety
  import opened StoreRuns
  import opened StoreMarks

  // ---------------------------------------------------------------- attempts

  /** The permit is for the action as recorded, under an approval of exactly its parameters by its actor. */
  predicate PermittedFor(action: Contract, r: Reservation, a: Attempt)
    requires action.Action?
  {
    && r.tenant == action.metadata.authority.tenant && r.operation == action.operation && r.idempotencyKey == action.idempotencyKey
    && a.request.actionRef == r.actionRef && a.request.idempotencyKey == action.idempotencyKey
    && a.request.tenant == action.metadata.authority.tenant && a.request.scope == action.metadata.authority.scope
    && a.request.purpose == action.metadata.authority.purpose && a.request.policyRevision == action.metadata.policyRevision
    && a.authorization.approves && a.authorization.actionRef == r.actionRef
    && a.authorization.parameterDigest == action.parameterDigest && a.authorization.actor == action.metadata.authority.actor
    && a.authorization.scope == action.metadata.authority.scope
    && a.request.authorizationId == a.authorization.id && a.request.authorizationDigest == a.authorization.digest
  }

  /** Leased, and consumed, inside the approval, the action's validity and the proof's. */
  predicate LeasedWithin(action: Contract, a: Attempt) {
    && a.authorization.issuedAt <= a.request.leaseIssuedAt <= a.consumedAt < a.request.leaseUntil
    && a.request.leaseUntil <= a.authorization.expiresAt && a.request.leaseUntil <= action.metadata.validUntil
    && a.request.leaseUntil <= a.proofExpiresAt
  }

  /** The issuer's proof covers this request. */
  predicate ProvedBy(a: Attempt) {
    var claims := a.envelope.claims;
    && claims.kind.ExecutionPermit? && claims.proofId == a.permitId == a.proofId && claims.issuer == a.issuer
    && claims.subject == a.request.requestRef && claims.subjectDigest == a.request.requestDigest
    && claims.nonce == a.nonce == a.request.dispatchNonce && claims.expiresAt == a.proofExpiresAt
    && a.envelope.keyId == a.keyId
  }

  /** Attempt `j` of a reservation, as permitted for its recorded action. */
  ghost predicate Permits(records: seq<Contract>, r: Reservation, j: nat)
    requires j < |r.attempts|
  {
    var a, found := r.attempts[j], Find(records, r.actionRef);
    && found.Some? && found.value.Action? && found.value.Ref() == r.actionRef
    && a.number == a.request.attempt == j + 1
    && PermittedFor(found.value, r, a) && LeasedWithin(found.value, a) && ProvedBy(a)
  }

  lemma AttemptMeans(s: State, i: nat, j: nat)
    requires StateValid(s) && i < |s.reservations| && j < |s.reservations[i].attempts|
    ensures Permits(s.records, s.reservations[i], j)
  {
    hide Find, RecordsUnique, RecordsValid, PointersLatest, InvalidatedKnown, CachedIsReplay, ConsumedOnce, ScopesUnique;
    hide ReservationIdsUnique, TimingValid, ReceiptLinkValid, ValidDigest, Envelope.ShapeValid;
    assert ReservationValid(s.records, s.reservations[i]);
    var action := Find(s.records, s.reservations[i].actionRef).value;
    assert AttemptBound(action, s.reservations[i], s.reservations[i].attempts[j], j + 1);
  }

  // ---------------------------------------------------------------- receipts

  /** The receipt answers this attempt, part by part, for work begun between its dispatch and the end of its lease. */
  predicate Answers(c: Contract, action: Contract, r: Reservation, a: Attempt)
    requires c.ExecutionReceipt? && action.Action?
  {
    && c.receipt.actionRef == r.actionRef && c.receipt.permitId == a.permitId && c.receipt.attempt == a.number
    && c.receipt.authorizationId == a.authorization.id && c.receipt.provider == a.request.provider
    && c.receipt.owner == a.request.owner && c.receipt.dispatchNonce == a.request.dispatchNonce
    && c.receipt.idempotencyKey == r.idempotencyKey && c.receipt.parameterDigest == action.parameterDigest
    && a.dispatchedAt.Some? && a.dispatchedAt.value <= c.receipt.startedAt < a.request.leaseUntil
    && c.receipt.startedAt <= c.receipt.completedAt
    && c.metadata.runId == action.metadata.runId && c.metadata.turnId == action.metadata.turnId
    && c.metadata.authority == action.metadata.authority
  }

  /** The provider signed this receipt after the work, and the signature was verified inside its validity. */
  predicate SignedByProvider(c: Contract, a: Attempt)
    requires c.ExecutionReceipt?
  {
    && a.receiptEnvelope.Some? && a.receiptVerifiedAt.Some?
    && var claims := a.receiptEnvelope.value.claims;
       && claims.kind.ProviderExecutionReceipt? && claims.issuer == c.receipt.provider && claims.subjectDigest == c.digest
       && claims.nonce == c.receipt.dispatchNonce
       && c.receipt.completedAt <= claims.issuedAt <= a.receiptVerifiedAt.value < claims.expiresAt
  }

  /** Every recorded receipt answers the attempt it settled, with the provider's signature. */
  lemma ReceiptMeans(s: State, k: nat) returns (i: nat, j: nat)
    requires StateValid(s) && ReceiptsCarried(s) && k < |s.records| && s.records[k].ExecutionReceipt?
    ensures i < |s.reservations| && j < |s.reservations[i].attempts|
    ensures s.reservations[i].attempts[j].receiptRef == Some(s.records[k].Ref())
    ensures
      var found := Find(s.records[..k], s.records[k].receipt.actionRef);
      && found.Some? && found.value.Action?
      && Answers(s.records[k], found.value, s.reservations[i], s.reservations[i].attempts[j])
      && SignedByProvider(s.records[k], s.reservations[i].attempts[j])
  {
    hide Find, RecordsValid, PointersLatest, InvalidatedKnown, CachedIsReplay, ReservationValid, ReservationsValid, ReceiptConsistent;
    var c := s.records[k];
    assert Carried(s, c.Ref());
    i, j :| i < |s.reservations| && j < |s.reservations[i].attempts| && s.reservations[i].attempts[j].receiptRef == Some(c.Ref());
    FoundIsOnly(s.records, k);
    RecordedReceipt(s, k);
    ReceiptLinked(s, i, j);
    IdsUnique(s);
    hide StateValid, ReceiptsCarried, ScopesUnique, ReservationIdsUnique, Carried, RecordsUnique;
    FoundByAction(s, i);
    FoundByPermit(s, i, j);
    ReceiptFits(s, k, i, j);
  }

  lemma ReceiptFits(s: State, k: nat, i: nat, j: nat)
    requires k < |s.records| && s.records[k].ExecutionReceipt? && i < |s.reservations| && j < |s.reservations[i].attempts|
    requires s.records[k].Valid() && ReceiptConsistent(s.records[k], s.records[..k], s.reservations)
    requires FindReservation(s.reservations, s.records[k].receipt.actionRef) == Some(i)
    requires FindAttempt(s.reservations[i].attempts, s.records[k].receipt.permitId) == Some(j)
    ensures
      var found := Find(s.records[..k], s.records[k].receipt.actionRef);
      found.Some? && found.value.Action? && Answers(s.records[k], found.value, s.reservations[i], s.reservations[i].attempts[j])
  {
    hide Find, FindReservation, FindAttempt, Metadata.Valid, ValidDigest;
  }

  lemma RecordedReceipt(s: State, k: nat)
    requires StateValid(s) && k < |s.records| && s.records[k].ExecutionReceipt?
    ensures s.records[k].Valid() && ReceiptConsistent(s.records[k], s.records[..k], s.reservations)
  {
    hide Find, RecordsUnique, PointersLatest, InvalidatedKnown, CachedIsReplay, ReservationsValid, Contract.Valid, ReferencesEarlier;
    hide ReceiptConsistent;
    assert CrossObjectConsistent(s.records[k], s.records[..k], s.reservations);
  }

  lemma ReceiptLinked(s: State, i: nat, j: nat)
    requires StateValid(s) && i < |s.reservations| && j < |s.reservations[i].attempts|
    requires s.reservations[i].attempts[j].receiptRef.Some?
    ensures
      var a, found := s.reservations[i].attempts[j], Find(s.records, s.reservations[i].attempts[j].receiptRef.value);
      && found.Some? && found.value.ExecutionReceipt? && SignedByProvider(found.value, a)
      && found.value.receipt.actionRef == s.reservations[i].actionRef && found.value.receipt.permitId == a.permitId
  {
    hide Find, RecordsUnique, RecordsValid, PointersLatest, InvalidatedKnown, CachedIsReplay, ConsumedOnce, ScopesUnique;
    hide ReservationIdsUnique, TimingValid, AttemptBound, Envelope.ShapeValid, ReceiptSubject;
    assert ReservationValid(s.records, s.reservations[i]);
    assert ReceiptLinkValid(s.records, s.reservations[i], s.reservations[i].attempts[j]);
  }

  // ---------------------------------------------------------------- actions and outcomes

  predicate SameContext(a: Metadata, b: Metadata) {
    a.runId == b.runId && a.turnId == b.turnId && a.authority == b.authority
  }

  lemma Consistent(s: State, k: nat)
    requires StateValid(s) && k < |s.records|
    ensures CrossObjectConsistent(s.records[k], s.records[..k], s.reservations)
  {
    hide Find, RecordsUnique, PointersLatest, InvalidatedKnown, CachedIsReplay, ReservationsValid, Contract.Valid, ReferencesEarlier;
    hide CrossObjectConsistent;
  }

  /**
    An action that follows a decision demands at least its authority, and runs without
    authorization only within the impact it allows, when it asks for no confirmation and does
    not prohibit the operation.
   */
  ghost predicate ActionRests(c: Contract, prior: seq<Contract>)
    requires c.Action?
  {
    c.decisionRef.Some? ==>
      var found := Find(prior, c.decisionRef.value);
      && found.Some? && found.value.Decision? && SameContext(c.metadata, found.value.metadata)
      && found.value.boundary.requiredAuthority <= c.requiredAuthority
      && (c.authorizationRequired
          || (&& c.impact <= found.value.boundary.maximumAutomaticImpact && !found.value.boundary.confirmationRequired
              && c.operation !in found.value.boundary.prohibitedOperations))
  }

  /** An outcome is of a decision and action recorded before it in its own context, and claims success only against a receipt that does. */
  ghost predicate OutcomeRests(c: Contract, prior: seq<Contract>)
    requires c.Outcome?
  {
    && (c.outcomeDecision.Some? ==>
          var d := Find(prior, c.outcomeDecision.value);
          d.Some? && d.value.Decision? && SameContext(c.metadata, d.value.metadata))
    && (c.outcomeAction.Some? ==>
          var a := Find(prior, c.outcomeAction.value);
          && a.Some? && a.value.Action? && SameContext(c.metadata, a.value.metadata)
          && (c.outcomeDecision.Some? ==> a.value.decisionRef == c.outcomeDecision))
    && (c.outcomeReceipt.Some? ==>
          var r := Find(prior, c.outcomeReceipt.value);
          && r.Some? && r.value.ExecutionReceipt? && SameContext(c.metadata, r.value.metadata)
          && c.outcomeAction == Some(r.value.receipt.actionRef)
          && (c.criteriaSatisfied ==> !r.value.receipt.state.ReceiptFailed? && !r.value.receipt.state.ReceiptRejected?))
  }

  ghost predicate Stands(prior: seq<Contract>, ref: ContractRef, m: Metadata) {
    Find(prior, ref).Some? && SameContext(m, Find(prior, ref).value.metadata)
  }

  /** A decision, response or turn names contracts recorded before it in its own context. */
  ghost predicate SourcesRest(c: Contract, prior: seq<Contract>) {
    match c
    case Decision(m, _, intentRef, _) => Stands(prior, intentRef, m) && Find(prior, intentRef).value.Intent?
    case Response(m, _, sources) => forall i :: 0 <= i < |sources| ==> Stands(prior, sources[i], m)
    case TurnCoordination(m, _, responses, actions) =>
      && (forall i :: 0 <= i < |responses| ==> Stands(prior, responses[i], m))
      && (forall i :: 0 <= i < |actions| ==> Stands(prior, actions[i], m))
    case _ => true
  }

  /** Every recorded action, outcome, decision, response and turn rests on what was recorded before it. */
  lemma RecordRests(s: State, k: nat)
    requires StateValid(s) && k < |s.records|
    ensures s.records[k].Action? ==> ActionRests(s.records[k], s.records[..k])
    ensures s.records[k].Outcome? ==> OutcomeRests(s.records[k], s.records[..k])
    ensures SourcesRest(s.records[k], s.records[..k])
  {
    hide *;
    Consistent(s, k);
    ConsistentRests(s.records[k], s.records[..k], s.reservations);
  }

  lemma ConsistentRests(c: Contract, prior: seq<Contract>, reservations: seq<Reservation>)
    requires CrossObjectConsistent(c, prior, reservations)
    ensures c.Action? ==> ActionRests(c, prior)
    ensures c.Outcome? ==> OutcomeRests(c, prior)
    ensures SourcesRest(c, prior)
  {
    hide Find, ReceiptConsistent;
  }

  /** A revision follows the one before it, and dependencies and predecessor stand earlier in the log. */
  ghost predicate Follows(c: Contract, prior: seq<Contract>) {
    var m := c.metadata;
    && (m.revision > 1 ==>
          && m.predecessor.Some? && Find(prior, m.predecessor.value).Some?
          && m.predecessor.value.Key() == c.Key() && m.predecessor.value.revision + 1 == m.revision)
    && (forall d :: d in m.dependencies ==> Find(prior, d).Some?)
  }

  lemma RecordFollows(s: State, k: nat)
    requires StateValid(s) && k < |s.records|
    ensures Follows(s.records[k], s.records[..k])
    ensures forall l :: 0 <= l < k ==>
      !(s.records[l].Key() == s.records[k].Key() && s.records[l].metadata.revision == s.records[k].metadata.revision)
  {
    hide Find, PointersLatest, InvalidatedKnown, CachedIsReplay, ReservationsValid, CrossObjectConsistent;
    assert s.records[k].Valid() && ReferencesEarlier(s.records, k);
  }

  // ---------------------------------------------------------------- what a write needs

  /** The provider's claims are about this receipt's tenant, scope, purpose and policy, and hold now. */
  predicate ClaimsHold(c: Contract, claims: Claims, verifiedAt: nat, now: nat)
    requires c.ExecutionReceipt?
  {
    && claims.issuer == c.receipt.provider && claims.subjectDigest == c.digest && claims.nonce == c.receipt.dispatchNonce
    && claims.tenant == c.metadata.authority.tenant && claims.scope == c.metadata.authority.scope
    && claims.purpose == c.metadata.authority.purpose && claims.policyRevision == c.metadata.policyRevision
    && c.receipt.completedAt <= claims.issuedAt <= verifiedAt <= now < claims.expiresAt
  }

  /** A commit changes the store only with a valid contract that continues its revisions and depends on live records, a receipt only under its proof. */
  lemma CommitNeeds(s: State, c: Contract, proof: Option<ReceiptProof>, now: nat)
    requires Next(s, Commit(c, proof, now)) != s
    ensures c.Valid() && (forall d :: d in c.metadata.dependencies ==> Live(s, d) && Find(s.records, d).Some?)
    ensures
      if c.Key() in s.current then
        c.metadata.predecessor == Some(s.current[c.Key()]) && c.metadata.revision == s.current[c.Key()].revision + 1
      else c.metadata.predecessor.None? && c.metadata.revision == 1
    ensures c.ExecutionReceipt? <==> proof.Some?
    ensures proof.Some? ==> ClaimsHold(c, proof.value.envelope.claims, proof.value.verifiedAt, now)
  {
    hide StateValid, Find, Contract.Valid, CommitCandidate, CrossObjectConsistent, Live, Envelope.ShapeValid, ReceiptSubject;
    forall d | d in c.metadata.dependencies
      ensures Live(s, d) && Find(s.records, d).Some?
    {
      assert DependencyUsable(s, d);
    }
  }

  /** A permit is issued only on a live action, now inside its lease, proof, approval and validity, with nothing consumed before. */
  lemma IssueNeeds(s: State, v: VerifiedRequest, freshId: Id, now: nat)
    requires Next(s, Issue(v, freshId, now)) != s
    ensures Live(s, v.request.actionRef)
    ensures
      var found := Find(s.records, v.request.actionRef);
      found.Some? && found.value.Action? && now < found.value.metadata.validUntil && v.verifiedAt <= now
    ensures v.request.leaseIssuedAt <= now < v.request.leaseUntil
    ensures v.envelope.claims.issuedAt <= now < v.envelope.claims.expiresAt
    ensures v.authorization.issuedAt <= now < v.authorization.expiresAt && v.authorization.approves
    ensures forall i, j :: 0 <= i < |s.reservations| && 0 <= j < |s.reservations[i].attempts| ==>
      var a := s.reservations[i].attempts[j];
      && a.proofId != v.envelope.claims.proofId && a.nonce != v.envelope.claims.nonce
      && a.authorization.id != v.request.authorizationId
  {
    hide StateValid, Find, Reserve, Live, ValidDigest;
    if PlanIssue(s, v, freshId, now).write.Some? {
      IssueConsumesFresh(s, v, freshId, now);
    }
  }
}
