/**
  What the keys of a run's tables keep apart in every reachable state: reservations, attempts,
  permits, nonces, receipts and the revisions of records.
 */
module RunKeys {
  import opened Wrappers
  import opened Contracts
  import opened RunModel
  import opened RunTables
  import opened RunInvariants
  import opened RunDrafts
  import opened RunSafety
  import opened RunExecutions
  import opened RunEffects

  // ---------------------------------------------------------------- executions

  /** No action, and no operation under one key, is reserved twice. */
  ghost predicate FencesApart(t: Executions) {
    forall i, j :: i in t.fences && j in t.fences && i != j ==>
      && t.fences[i].action != t.fences[j].action
      && !(t.fences[i].operation == t.fences[j].operation && t.fences[i].idempotencyKey == t.fences[j].idempotencyKey)
  }

  /** Attempts count from one without a gap; no permit is issued twice, and no nonce twice in a reservation. */
  ghost predicate AttemptsApart(t: Executions) {
    && (forall k :: k in t.attempts ==> k.number >= 1 && (k.number > 1 ==> AttemptKey(k.reservationId, k.number - 1) in t.attempts))
    && (forall k, l :: k in t.attempts && l in t.attempts && k != l ==>
          && t.attempts[k].permitId != t.attempts[l].permitId
          && (k.reservationId == l.reservationId ==> t.attempts[k].nonce != t.attempts[l].nonce))
  }

  ghost predicate ReceiptsKnown(t: Executions) {
    forall k :: k in t.receipts ==> k in t.attempts
  }

  ghost predicate KeysHold(t: Executions) {
    FencesApart(t) && AttemptsApart(t) && ReceiptsKnown(t)
  }

  lemma FenceStaysApart(t: Executions, before: Option<Execution>, x: Execution, revoked: bool)
    requires FencesApart(t) && FenceFits(t.fences, before, x, revoked)
    ensures FencesApart(t.(fences := t.fences[x.reservationId := FenceOf(x)]))
  {
    hide TransitionAllowed;
  }

  lemma AttemptStaysApart(t: Executions, x: Execution)
    requires AttemptsApart(t) && AttemptFits(t.attempts, x) && x.attempt >= 1
    ensures AttemptsApart(t.(attempts := t.attempts[AttemptOf(x) := PermitOf(x)]))
  {
    var key, after := AttemptOf(x), t.attempts[AttemptOf(x) := PermitOf(x)];
    if key in t.attempts {
      assert after == t.attempts;
    } else {
      forall k | k in after
        ensures k.number >= 1 && (k.number > 1 ==> AttemptKey(k.reservationId, k.number - 1) in after)
      {
        assert k != key ==> k in t.attempts;
      }
      forall k, l | k in after && l in after && k != l
        ensures after[k].permitId != after[l].permitId
        ensures k.reservationId == l.reservationId ==> after[k].nonce != after[l].nonce
      {
        assert (k == key || k in t.attempts) && (l == key || l in t.attempts);
      }
    }
  }

  lemma WrittenStaysApart(t: Executions, before: Option<Execution>, x: Execution, c: Command, now: nat, revoked: bool)
    requires KeysHold(t) && RowsOfExecution(t, before, x, now, revoked) && x.attempt >= 1
    requires c.CommitExecutionReceipt? ==> AttemptKey(c.reservationId, c.attempt) == AttemptOf(x)
    ensures KeysHold(ExecutionWritten(t, Some(x), c))
  {
    hide FencesApart, AttemptsApart, FenceFits, AttemptFits, WithinLimits;
    FenceStaysApart(t, before, x, revoked);
    AttemptStaysApart(t, x);
    assert FencesApart(ExecutionWritten(t, Some(x), c)) by { SameFences(t.(fences := t.fences[x.reservationId := FenceOf(x)]), ExecutionWritten(t, Some(x), c)); }
    assert AttemptsApart(ExecutionWritten(t, Some(x), c)) by { SameAttempts(t.(attempts := t.attempts[AttemptOf(x) := PermitOf(x)]), ExecutionWritten(t, Some(x), c)); }
  }

  lemma SameFences(s: Executions, t: Executions)
    requires FencesApart(s) && t.fences == s.fences
    ensures FencesApart(t)
  {
  }

  lemma SameAttempts(s: Executions, t: Executions)
    requires AttemptsApart(s) && t.attempts == s.attempts
    ensures AttemptsApart(t)
  {
  }

  /** An execution's attempt is its first or a later one. */
  predicate Counts(p: Projection) {
    p.execution.Some? ==> p.execution.value.attempt >= 1
  }

  lemma MovedCounts(x: Option<Execution>, y: Option<Execution>, c: Command)
    requires MovedBy(x, y, c) && (x.Some? ==> x.value.attempt >= 1)
    ensures y.Some? ==> y.value.attempt >= 1
  {
  }

  lemma StepKeepsKeys(w: World, t: World, input: Input)
    requires KeysHold(w.executions) && Counts(w.projection) && Steps(w, t, input)
    ensures KeysHold(t.executions) && Counts(t.projection)
  {
    StepMoves(w, t, input);
    StepFits(w, t, input);
    EvaluatedOrFailed(w, t, input);
    var c, revoked := input.envelope.command, AdmissionFails(w.projection, input.envelope.command, input.proofsHold);
    SameIsMoved(w.projection.execution, t.projection.execution, c);
    MovedCounts(w.projection.execution, t.projection.execution, c);
    hide Steps, Evaluate, AdmissionFails, RowsOfExecution, MovedBy, KeysHold, ReceiptFits, ExecutionWritten, Settles;
    if c.CommitExecutionReceipt? {
      ReceiptUsesNoAdmission(w.projection, c, input.proofsHold);
      ReceiptCloses(w.projection, input.envelope, input.now);
      StepRemembers(w, t, input);
      ReceiptAttempt(w.projection, t.projection, c);
    }
    if t.projection.execution.Some? {
      WrittenStaysApart(w.executions, w.projection.execution, t.projection.execution.value, c, input.now, revoked);
    } else {
      NothingWritten(w.executions, c);
    }
  }

  lemma ReceiptAttempt(p: Projection, q: Projection, c: Command)
    requires Outstanding(p) && Remembers(p, q, c) && c.CommitExecutionReceipt?
    requires c.reservationId == p.execution.value.reservationId && c.attempt == p.execution.value.attempt
    ensures q.execution.Some? && AttemptKey(c.reservationId, c.attempt) == AttemptOf(q.execution.value)
  {
  }

  lemma NothingWritten(t: Executions, c: Command)
    requires KeysHold(t)
    ensures !c.CommitExecutionReceipt? ==> KeysHold(ExecutionWritten(t, None, c))
  {
    assert t.receipts + {} == t.receipts;
  }

  // ---------------------------------------------------------------- records

  /** Revisions of a record follow one another under one policy, and no digest is stored twice. */
  ghost predicate RecordsApart(stored: map<RecordKey, Ref>) {
    && (forall k :: k in stored ==> stored[k].Key() == k)
    && (forall k :: k in stored && k.revision > 1 ==>
          var previous := RecordKey(k.id, k.revision - 1);
          previous in stored && stored[previous].policy == stored[k].policy)
    && (forall k, l :: k in stored && l in stored && k != l ==> stored[k].digest != stored[l].digest)
  }

  lemma RecordStaysApart(stored: map<RecordKey, Ref>, ref: Ref)
    requires RecordsApart(stored) && RecordFits(stored, ref)
    ensures RecordsApart(stored[ref.Key() := ref])
  {
  }

  lemma StepKeepsRecords(w: World, t: World, input: Input)
    requires RecordsApart(w.stored) && Steps(w, t, input)
    ensures RecordsApart(t.stored)
  {
    hide Steps, Evaluate, AdmissionFails, Persist, ListsRoot, ClosureRoot, Closed, RecordFits, RecordsApart;
    EvaluatedOrFailed(w, t, input);
    var e, p := input.envelope, w.projection;
    if AdmissionFails(p, e.command, input.proofsHold) {
      FailureStores(w, t, input);
    } else {
      var d := Evaluate(p, e, input.now).value;
      StepUnfolds(w, t, input, d);
      var root := ClosureRoot(p, e.command, d);
      PersistKeeps(w, t, e, d.(projection := Closed(d, root, input.listing, e.command.InvalidateRecord?)), input.now, false);
      if d.record.Some? {
        RecordStaysApart(w.stored, d.record.value);
      }
    }
  }

  // ---------------------------------------------------------------- runs

  /** Every reachable state keeps all of these apart. */
  lemma {:induction false} RunsKeepKeys(domain: nat, worlds: seq<World>, inputs: seq<Input>, n: nat)
    requires IsRun(domain, worlds, inputs) && n < |worlds|
    ensures KeysHold(worlds[n].executions) && Counts(worlds[n].projection) && RecordsApart(worlds[n].stored)
  {
    hide Steps, KeysHold, Counts, RecordsApart;
    if n == 0 {
      FreshKeys(domain);
    } else {
      RunsKeepKeys(domain, worlds, inputs, n - 1);
      assert Steps(worlds[n - 1], worlds[n - 1 + 1], inputs[n - 1]);
      StepKeepsKeys(worlds[n - 1], worlds[n], inputs[n - 1]);
      StepKeepsRecords(worlds[n - 1], worlds[n], inputs[n - 1]);
    }
  }

  lemma FreshKeys(domain: nat)
    ensures
      var w := FreshWorld(domain);
      KeysHold(w.executions) && Counts(w.projection) && RecordsApart(w.stored)
  {
  }
}
