/**
  A concrete run of the store in which a dispatched action is dispatched anew: a mark that
  comes after the lease stores the waiting attempt as expired, and a second permit is issued.
 */
module StoreExample {
  import opened Wrappers
  import opened Contracts
  import opened SigningBytes
  import opened StoreModel
  import opened StoreOperations
  import opened StoreSnapshot
  import opened StoreCommit
  import opened StoreSafety
  import opened StoreIssue
  import opened StoreRuns
  import opened StoreMarks
  import opened StoreReceipts

  // ---------------------------------------------------------------- the contracts

  function Digest(digit: char): (digest: string)
    requires '0' <= digit <= '9'
    ensures ValidDigest(digest) && digest[0] == digit
  {
    seq(64, i => digit)
  }

  function TheAction(): Contract {
    Action(
      Metadata(ActionKind, 1, 1, 1, 1, None, AuthorityContext("tenant", "actor", "scope", "purpose"), [], "policy", 1_000),
      Digest('0'), None, "operation", Digest('0'), "key", {}, true, 0)
  }

  /** A UUID of one repeated digit. */
  function ProofId(digit: nat): Uuid
    requires 0 < digit < 16
  {
    seq(32, i => digit)
  }

  function Approval(id: Id): Authorization {
    Authorization(id, TheAction().Ref(), Digest('0'), "actor", true, "scope", 1, 100, Digest('0'))
  }

  /** The request for attempt `number`, leased for ten seconds from `start` on. */
  function Request(number: nat, start: nat): PermitRequest
    requires 0 < number < 10
  {
    PermitRequest(
      "request", TheAction().Ref(), number, Digest('0'), "provider", "owner", number, start, start + 10,
      Digest((48 + number) as char), "key", "tenant", "scope", "purpose", "policy", Digest('0'))
  }

  function Signed(number: nat, start: nat): Envelope
    requires 0 < number < 10
  {
    Envelope(
      Claims(
        ProofId(number), ProofKind.ExecutionPermit, "issuer", "request", Digest('0'), "tenant", "scope", "purpose", "policy", start, start + 10,
        Digest((48 + number) as char), 1),
      "key", seq(128, i => '0'))
  }

  function Verified(number: nat, start: nat): VerifiedRequest
    requires 0 < number < 10
  {
    VerifiedRequest(Request(number, start), Approval(number), Signed(number, start), start)
  }

  lemma ActionIsValid()
    ensures TheAction().Valid() && Committable(EMPTY, TheAction()) && Find(EMPTY.records, TheAction().Ref()).None?
  {
  }

  lemma NotBlank(s: string)
    requires s != "" && 'a' <= s[0] <= 'z'
    ensures !Blank(s)
  {
    assert !IsWhitespace(s[0]);
  }

  lemma RequestIsVerified(number: nat, start: nat)
    requires 0 < number < 10 && 0 < start < 50
    ensures Verified(number, start).Bound() && Verified(number, start).ValidAt(TheAction(), start)
  {
    hide Digest;
    NotBlank("issuer");
    NotBlank("request");
    NotBlank("tenant");
    NotBlank("scope");
    NotBlank("purpose");
    NotBlank("policy");
    assert Signed(number, start).claims.proofId[0] != 0;
    assert Signed(number, start).ShapeValid();
  }

  // ---------------------------------------------------------------- the run

  function Empty(): State {
    State([TheAction()], map[TheAction().Key() := TheAction().Ref()], {}, [])
  }

  /** The store with the action and these attempts at it. */
  function With(attempts: seq<Attempt>): State {
    State([TheAction()], map[TheAction().Key() := TheAction().Ref()], {},
          [Reservation(7, TheAction().Ref(), "tenant", "operation", "key", attempts)])
  }

  function FirstAttempt(): Attempt {
    NewAttempt(Verified(1, 1), 1)
  }

  function FirstPermit(): Permit {
    PermitFor(7, FirstAttempt(), 1)
  }

  function AfterDelivery(): Attempt {
    FirstAttempt().(status := Delivered, deliveredAt := Some(2))
  }

  function AfterDispatch(): Attempt {
    AfterDelivery().(status := Dispatched, dispatchedAt := Some(3))
  }

  function Forgotten(): Attempt {
    AfterDispatch().(status := Expired)
  }

  lemma ActionCommits()
    ensures Run([Commit(TheAction(), None, 0)]) == Empty()
  {
    EmptyIsValid();
    ActionIsValid();
    hide StateValid, Run, Next, Contract.Valid, Committable, Digest;
    PlainCommits(EMPTY, TheAction());
    RunStep([], Commit(TheAction(), None, 0));
    assert [] + [Commit(TheAction(), None, 0)] == [Commit(TheAction(), None, 0)];
    EmptyRun();
  }

  lemma ActionIsLive(attempts: seq<Attempt>)
    ensures Live(With(attempts), TheAction().Ref()) && Live(Empty(), TheAction().Ref())
    ensures Find([TheAction()], TheAction().Ref()) == Some(TheAction())
  {
    assert [TheAction()][..0] == [];
  }

  lemma FirstPlanned()
    requires Verified(1, 1).ValidAt(TheAction(), 1)
    ensures PlanIssue(Empty(), Verified(1, 1), 7, 1).write == Some(With([FirstAttempt()]))
  {
    ActionIsLive([]);
    assert Conflict(Empty().reservations, TheAction()).None?;
    hide Find, Live, Digest, VerifiedRequest.ValidAt, Conflict;
    assert Find(Empty().records, TheAction().Ref()) == Some(TheAction());
    var r := Reservation(7, TheAction().Ref(), "tenant", "operation", "key", [FirstAttempt()]);
    assert [] + [r] == [r];
  }

  lemma FirstIssued(s: State)
    requires s == Empty() && StateValid(s) && SingleUse(s.reservations)
    ensures Next(s, Issue(Verified(1, 1), 7, 1)) == With([FirstAttempt()])
  {
    hide *;
    RequestIsVerified(1, 1);
    FirstPlanned();
    NoReservations();
    IssueAccepted(s, Verified(1, 1), 7, 1);
    PlansIssue(s, Verified(1, 1), 7, 1);
    Carries(s, Issue(Verified(1, 1), 7, 1));
  }

  lemma NoReservations()
    ensures Empty().reservations == []
  {
  }

  lemma OnlyLast(attempts: seq<Attempt>, b: Attempt)
    requires |attempts| == 1
    ensures WithLast(With(attempts), 0, b) == With([b])
  {
    assert attempts[0 := b] == [b];
  }

  lemma Marks(s: State, a: Attempt, mark: Mark, now: nat)
    requires s == With([a]) && StateValid(s) && ReceiptsCarried(s)
    requires SameBinding(FirstAttempt(), a)
    ensures InTime(a, now) && Leads(a, mark, now) ==> Next(s, MarkPermit(FirstPermit(), mark, now)) == With([Advanced(a, mark, now)])
    ensures !InTime(a, now) && a.status.Dispatched? ==> Next(s, MarkPermit(FirstPermit(), mark, now)) == With([a.(status := Expired)])
  {
    hide StateValid, ReceiptsCarried, Digest, Next, WithLast;
    assert Names(s, 0, FirstPermit()) && Live(s, s.reservations[0].actionRef) && LastOf(s.reservations[0]) == a;
    OnlyLast([a], Advanced(a, mark, now));
    OnlyLast([a], a.(status := Expired));
    MarkAdvances(s, 0, a, FirstPermit(), mark, now);
    if a.status.Dispatched? {
      LateMarkForgets(s, 0, a, FirstPermit(), mark, now);
    }
  }

  lemma SecondPlanned()
    requires Verified(2, 20).ValidAt(TheAction(), 20)
    ensures PlanIssue(With([Forgotten()]), Verified(2, 20), 8, 20).write == Some(With([Forgotten(), NewAttempt(Verified(2, 20), 20)]))
  {
    ActionIsLive([Forgotten()]);
    NothingShared(With([Forgotten()]));
    SameAction(With([Forgotten()]));
    hide Find, Live, Digest, VerifiedRequest.ValidAt, ProofSeen, AuthorizationSeen, Conflict;
    var s, a := With([Forgotten()]), NewAttempt(Verified(2, 20), 20);
    assert Find(s.records, TheAction().Ref()) == Some(TheAction());
    assert [Forgotten()] + [a] == [Forgotten(), a];
    assert AddAttempt(s.reservations, 0, a) == With([Forgotten(), a]).reservations;
  }

  lemma SecondIssued(s: State)
    requires s == With([Forgotten()]) && StateValid(s) && SingleUse(s.reservations)
    ensures Next(s, Issue(Verified(2, 20), 8, 20)) == With([Forgotten(), NewAttempt(Verified(2, 20), 20)])
  {
    hide *;
    RequestIsVerified(2, 20);
    SecondPlanned();
    OneReservation([Forgotten()]);
    IssueAccepted(s, Verified(2, 20), 8, 20);
    PlansIssue(s, Verified(2, 20), 8, 20);
    Carries(s, Issue(Verified(2, 20), 8, 20));
  }

  lemma OneReservation(attempts: seq<Attempt>)
    ensures |With(attempts).reservations| == 1 && With(attempts).reservations[0].id == 7
  {
  }

  lemma SameAction(s: State)
    requires s == With([Forgotten()])
    ensures Conflict(s.reservations, TheAction()) == Some(0)
  {
    hide Conflict, Digest;
    var i := Conflict(s.reservations, TheAction());
    assert s.reservations[0].actionRef == TheAction().Ref();
  }

  lemma NothingShared(s: State)
    requires s == With([Forgotten()])
    ensures !ProofSeen(s.reservations, Signed(2, 20).claims.proofId, Signed(2, 20).claims.nonce)
    ensures !AuthorizationSeen(s.reservations, Request(2, 20).authorizationId)
  {
    var a, v := Forgotten(), Verified(2, 20);
    assert a.proofId[0] == 1 && v.envelope.claims.proofId[0] == 2;
    assert a.nonce[0] == '1' && v.envelope.claims.nonce[0] == '2';
  }

  function Script(): seq<Operation> {
    [Commit(TheAction(), None, 0), Issue(Verified(1, 1), 7, 1), MarkPermit(FirstPermit(), Deliver, 2),
     MarkPermit(FirstPermit(), Dispatch, 3), MarkPermit(FirstPermit(), Dispatch, 15), Issue(Verified(2, 20), 8, 20)]
  }

  /** A dispatched attempt whose dispatch is marked once more after its lease is expired, and the action permitted again. */
  lemma DispatchedTwice()
    ensures
      var r := Run(Script()).reservations;
      && |r| == 1 && |r[0].attempts| == 2 && r[0].attempts[1].status.PermitIssued?
      && r[0].attempts[0].dispatchedAt == Some(3) && r[0].attempts[0].status.Expired? && r[0].attempts[0].receiptRef.None?
    ensures Live(Run(Script()), TheAction().Ref())
  {
    var ops := Script();
    assert ops[..1] == [Commit(TheAction(), None, 0)];
    RunIs(ops);
    ActionIsLive([Forgotten(), NewAttempt(Verified(2, 20), 20)]);
    hide Run, Digest, ProofId, Live;
  }

  lemma RunIs(ops: seq<Operation>)
    requires |ops| == 6 && ops[..1] == [Commit(TheAction(), None, 0)] && ops[1] == Issue(Verified(1, 1), 7, 1)
    requires ops[2] == MarkPermit(FirstPermit(), Deliver, 2) && ops[3] == MarkPermit(FirstPermit(), Dispatch, 3)
    requires ops[4] == MarkPermit(FirstPermit(), Dispatch, 15) && ops[5] == Issue(Verified(2, 20), 8, 20)
    ensures Run(ops) == With([Forgotten(), NewAttempt(Verified(2, 20), 20)])
  {
    hide *;
    ActionCommits();
    Follow(ops, 1);
    FirstIssued(Run(ops[..1]));
    RunMarks(ops);
    Follow(ops, 5);
    SecondIssued(Run(ops[..5]));
    assert ops[..6] == ops;
  }

  lemma RunMarks(ops: seq<Operation>)
    requires |ops| == 6 && ops[2] == MarkPermit(FirstPermit(), Deliver, 2)
    requires ops[3] == MarkPermit(FirstPermit(), Dispatch, 3) && ops[4] == MarkPermit(FirstPermit(), Dispatch, 15)
    requires Run(ops[..2]) == With([FirstAttempt()])
    ensures Run(ops[..5]) == With([Forgotten()])
  {
    hide *;
    MarksFollow();
    Follow(ops, 2);
    Marks(Run(ops[..2]), FirstAttempt(), Deliver, 2);
    Follow(ops, 3);
    Marks(Run(ops[..3]), AfterDelivery(), Dispatch, 3);
    Follow(ops, 4);
    Marks(Run(ops[..4]), AfterDispatch(), Dispatch, 15);
  }

  lemma MarksFollow()
    ensures InTime(FirstAttempt(), 2) && Leads(FirstAttempt(), Deliver, 2) && Advanced(FirstAttempt(), Deliver, 2) == AfterDelivery()
    ensures InTime(AfterDelivery(), 3) && Leads(AfterDelivery(), Dispatch, 3) && Advanced(AfterDelivery(), Dispatch, 3) == AfterDispatch()
    ensures !InTime(AfterDispatch(), 15) && AfterDispatch().status.Dispatched? && AfterDispatch().(status := Expired) == Forgotten()
    ensures SameBinding(FirstAttempt(), FirstAttempt()) && SameBinding(FirstAttempt(), AfterDelivery()) && SameBinding(FirstAttempt(), AfterDispatch())
  {
    hide Digest, ProofId;
  }

  lemma Follow(ops: seq<Operation>, n: nat)
    requires n < |ops|
    ensures Run(ops[..n + 1]) == Next(Run(ops[..n]), ops[n])
    ensures StateValid(Run(ops[..n])) && SingleUse(Run(ops[..n]).reservations) && ReceiptsCarried(Run(ops[..n]))
    ensures StateValid(Run(ops[..n + 1])) && SingleUse(Run(ops[..n + 1]).reservations) && ReceiptsCarried(Run(ops[..n + 1]))
  {
    hide StateValid, SingleUse, ReceiptsCarried, InFlightLive, Next, Run;
    assert ops[..n + 1] == ops[..n] + [ops[n]];
    RunStep(ops[..n], ops[n]);
    RunsAreSafe(ops[..n]);
    RunsAreSafe(ops[..n + 1]);
  }
}
