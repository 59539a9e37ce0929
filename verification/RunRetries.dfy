/**
  Retried commands. Each committed command leaves a receipt under its identifier; a retry is
  answered from it, and another command under the same identifier is refused.
 */
module RunRetries {
  import opened Wrappers
  import opened Contracts
  import opened RunModel
  import opened RunTables
  import opened RunInvariants
  import opened RunSafety

  datatype Receipt = Receipt(version: nat, state: RunState, record: Option<Ref>)

  /** A receipt beside the command it answers; the command's digest stands for the command. */
  datatype Filed = Filed(envelope: Envelope, receipt: Receipt)

  datatype Desk = Desk(world: World, receipts: map<Id, Filed>)

  /** `verified` says whether the command's own proofs verify at this time. */
  datatype Call = Call(id: Id, input: Input, verified: bool)

  datatype CallError = IdempotencyConflict | ProofVerificationFailed | Refused(error: RunError)

  datatype Reply = Reply(receipt: Receipt, replay: bool)

  /** The receipt of a transaction that committed. */
  function ReceiptOf(w: World, t: World, i: Input): Receipt {
    var decided := Decide(w.projection, i.envelope, i.now, i.proofsHold, i.listing);
    Receipt(t.projection.version, t.projection.state, if decided.Ok? then decided.value.record else None)
  }

  function Answer(d: Desk, c: Call): Result<Reply, CallError> {
    if !ProofsDistinct(c.input.envelope.proofs, c.input.envelope.domain) then Err(Refused(ProofReplay))
    else if c.id in d.receipts && d.receipts[c.id].envelope != c.input.envelope then Err(IdempotencyConflict)
    else if !c.verified then Err(ProofVerificationFailed)
    else if c.id in d.receipts then Ok(Reply(d.receipts[c.id].receipt, true))
    else
      match Transact(d.world, c.input.envelope, c.input.now, c.input.proofsHold, c.input.listing)
      case Err(error) => Err(Refused(error))
      case Ok(t) => Ok(Reply(ReceiptOf(d.world, t, c.input), false))
  }

  /** A call moves the desk only when it commits. */
  function Next(d: Desk, c: Call): Desk {
    var answer := Answer(d, c);
    if answer.Err? || answer.value.replay then d
    else
      var t := Transact(d.world, c.input.envelope, c.input.now, c.input.proofsHold, c.input.listing).value;
      Desk(t, d.receipts[c.id := Filed(c.input.envelope, answer.value.receipt)])
  }

  ghost predicate ListsClosure(d: Desk, c: Call) {
    ListsRoot(d.world, RootNeeded(d.world.projection, c.input.envelope, c.input.now, c.input.proofsHold), c.input.listing)
  }

  /** A session: calls one after another, retries and conflicting identifiers among them. */
  ghost predicate IsSession(domain: nat, desks: seq<Desk>, calls: seq<Call>) {
    && |desks| == |calls| + 1
    && desks[0] == Desk(FreshWorld(domain), map[])
    && forall i :: 0 <= i < |calls| ==> ListsClosure(desks[i], calls[i]) && desks[i + 1] == Next(desks[i], calls[i])
  }

  predicate Commits(d: Desk, c: Call) {
    Answer(d, c).Ok? && !Answer(d, c).value.replay
  }

  lemma CommitSteps(d: Desk, c: Call)
    requires Commits(d, c) && ListsClosure(d, c)
    ensures Steps(d.world, Next(d, c).world, c.input)
  {
    hide Transact, ReceiptOf, ProofsDistinct, ListsRoot, RootNeeded;
  }

  /** Every call, retries included, keeps the run's invariant. */
  lemma {:induction false} SessionsKeepInvariant(domain: nat, desks: seq<Desk>, calls: seq<Call>, n: nat)
    requires IsSession(domain, desks, calls) && n < |desks|
    ensures Invariant(desks[n].world)
  {
    hide Invariant, Next, Commits, ListsClosure;
    if n == 0 {
      FreshInvariant(domain);
    } else {
      SessionsKeepInvariant(domain, desks, calls, n - 1);
      var d, c := desks[n - 1], calls[n - 1];
      assert ListsClosure(d, c) && desks[n - 1 + 1] == Next(d, c);
      if Commits(d, c) {
        CommitSteps(d, c);
        StepKeepsInvariant(d.world, desks[n].world, c.input);
      } else {
        RefusedStays(d, c);
      }
    }
  }

  lemma RefusedStays(d: Desk, c: Call)
    requires !Commits(d, c)
    ensures Next(d, c) == d
  {
    hide Answer;
  }

  lemma CommitFiles(d: Desk, c: Call)
    requires Commits(d, c)
    ensures c.id !in d.receipts && Next(d, c).receipts == d.receipts[c.id := Filed(c.input.envelope, Answer(d, c).value.receipt)]
  {
    hide Transact, ReceiptOf, ProofsDistinct;
  }

  /** Receipts stay as they were filed. */
  lemma {:induction false} ReceiptsKept(domain: nat, desks: seq<Desk>, calls: seq<Call>, i: nat, j: nat, id: Id)
    requires IsSession(domain, desks, calls) && i <= j < |desks| && id in desks[i].receipts
    ensures id in desks[j].receipts && desks[j].receipts[id] == desks[i].receipts[id]
    decreases j
  {
    hide Next, Commits, Answer, ListsClosure;
    if i < j {
      ReceiptsKept(domain, desks, calls, i, j - 1, id);
      assert desks[j - 1 + 1] == Next(desks[j - 1], calls[j - 1]);
      if Commits(desks[j - 1], calls[j - 1]) {
        CommitFiles(desks[j - 1], calls[j - 1]);
      } else {
        RefusedStays(desks[j - 1], calls[j - 1]);
      }
    }
  }

  /**
    An identifier commits at most once. Every later call under it changes nothing; the same
    command, its proofs still verifying, gets the first receipt again, and another is refused.
   */
  lemma CommittedOnce(domain: nat, desks: seq<Desk>, calls: seq<Call>, i: nat, j: nat)
    requires IsSession(domain, desks, calls) && i < j < |calls| && Commits(desks[i], calls[i]) && calls[j].id == calls[i].id
    ensures desks[j + 1] == desks[j]
    ensures calls[j].input.envelope == calls[i].input.envelope && calls[j].verified ==>
      Answer(desks[j], calls[j]) == Ok(Answer(desks[i], calls[i]).value.(replay := true))
    ensures calls[j].input.envelope != calls[i].input.envelope || !calls[j].verified ==> Answer(desks[j], calls[j]).Err?
  {
    CommitFiles(desks[i], calls[i]);
    assert desks[i + 1] == Next(desks[i], calls[i]) && desks[j + 1] == Next(desks[j], calls[j]);
    ReceiptsKept(domain, desks, calls, i + 1, j, calls[i].id);
    hide IsSession, Next, Transact, ReceiptOf, Commits;
    CommitWellFormed(desks[i], calls[i]);
    if Commits(desks[j], calls[j]) {
      CommitFiles(desks[j], calls[j]);
    } else {
      RefusedStays(desks[j], calls[j]);
    }
  }

  lemma CommitWellFormed(d: Desk, c: Call)
    requires Commits(d, c)
    ensures ProofsDistinct(c.input.envelope.proofs, c.input.envelope.domain) && !Answer(d, c).value.replay
  {
    hide Transact, ReceiptOf, ProofsDistinct;
  }
}
