/**
  The audit log: rows of all tenants in one sequence, each chained by hash to its tenant's
  previous row, and the integrity walk over them.

  Digests are free terms: distinct inputs have distinct digests, and no digest is the root
  of sixty-four zeros from which every chain starts.
 */
module AuditChain {
  import opened Wrappers
  import opened Contracts

  /** The columns of a row that its payload repeats. */
  datatype Columns = Columns(
    domain: Reference, environment: Reference, tenant: Reference, run: Id, version: nat, actor: Reference, caller: Reference,
    correlation: Reference, causation: Reference, policy: Reference, contractRefs: seq<Id>, proofRefs: seq<Id>)

  datatype Payload = Payload(columns: Columns, body: string)

  datatype Root = Zero | EventHash(previous: Root, payload: Payload)

  datatype Row = Row(columns: Columns, previous: Root, hash: Root, payload: Payload)

  /** One tenant's rows, in sequence order. */
  function TenantRows(rows: seq<Row>, tenant: Reference): seq<Row> {
    if rows == [] then []
    else
      var earlier := TenantRows(rows[..|rows| - 1], tenant);
      var last := rows[|rows| - 1];
      if last.columns.tenant == tenant then earlier + [last] else earlier
  }

  /** The hash the tenant's next row continues. */
  function RootOf(rows: seq<Row>): Root {
    if rows == [] then Zero else rows[|rows| - 1].hash
  }

  /** What a transaction appends for a payload. */
  function NextRow(rows: seq<Row>, payload: Payload): Row {
    var previous := RootOf(TenantRows(rows, payload.columns.tenant));
    Row(payload.columns, previous, EventHash(previous, payload), payload)
  }

  function Written(rows: seq<Row>, payload: Payload): seq<Row> {
    rows + [NextRow(rows, payload)]
  }

  /** The log that transactions with these payloads write. */
  function LogOf(payloads: seq<Payload>): seq<Row> {
    if payloads == [] then [] else Written(LogOf(payloads[..|payloads| - 1]), payloads[|payloads| - 1])
  }

  /** Row `i` is in the walker's domain and environment, repeats its payload, and links to the row before it. */
  predicate RowLinks(chain: seq<Row>, i: nat, domain: Reference, environment: Reference)
    requires i < |chain|
  {
    && chain[i].columns == chain[i].payload.columns
    && chain[i].columns.domain == domain && chain[i].columns.environment == environment
    && chain[i].previous == (if i == 0 then Zero else chain[i - 1].hash)
    && chain[i].hash == EventHash(chain[i].previous, chain[i].payload)
  }

  ghost predicate ChainLinks(chain: seq<Row>, domain: Reference, environment: Reference) {
    forall i :: 0 <= i < |chain| ==> RowLinks(chain, i, domain, environment)
  }

  /** Every tenant's rows form a chain from the zero root. */
  ghost predicate LogLinks(rows: seq<Row>, domain: Reference, environment: Reference) {
    forall tenant :: ChainLinks(TenantRows(rows, tenant), domain, environment)
  }

  // ---------------------------------------------------------------- the walk

  /** What the walk requires of one row, given the root its tenant's chain has reached. */
  predicate RowAccepted(row: Row, expected: Root, domain: Reference, environment: Reference) {
    && row.columns == row.payload.columns && row.columns.domain == domain && row.columns.environment == environment
    && row.previous == expected && row.hash == EventHash(row.previous, row.payload)
  }

  lemma ChainGrows(chain: seq<Row>, row: Row, domain: Reference, environment: Reference)
    ensures ChainLinks(chain + [row], domain, environment) <==>
      ChainLinks(chain, domain, environment) && RowAccepted(row, RootOf(chain), domain, environment)
  {
    var longer := chain + [row];
    forall i | 0 <= i < |chain|
      ensures RowLinks(longer, i, domain, environment) <==> RowLinks(chain, i, domain, environment)
    {
    }
    assert RowLinks(longer, |chain|, domain, environment) <==> RowAccepted(row, RootOf(chain), domain, environment);
    if ChainLinks(longer, domain, environment) {
      forall i | 0 <= i < |chain|
        ensures RowLinks(chain, i, domain, environment)
      {
        assert RowLinks(longer, i, domain, environment);
      }
    }
  }

  lemma LogGrows(rows: seq<Row>, row: Row, domain: Reference, environment: Reference)
    ensures LogLinks(rows + [row], domain, environment) <==>
      LogLinks(rows, domain, environment)
      && RowAccepted(row, RootOf(TenantRows(rows, row.columns.tenant)), domain, environment)
  {
    hide ChainLinks, RowAccepted;
    var longer := rows + [row];
    assert longer[..|longer| - 1] == rows;
    var own := row.columns.tenant;
    ChainGrows(TenantRows(rows, own), row, domain, environment);
    forall tenant
      ensures TenantRows(longer, tenant) == if tenant == own then TenantRows(rows, own) + [row] else TenantRows(rows, tenant)
    {
    }
    if LogLinks(longer, domain, environment) {
      assert ChainLinks(TenantRows(longer, own), domain, environment);
      forall tenant
        ensures ChainLinks(TenantRows(rows, tenant), domain, environment)
      {
        assert ChainLinks(TenantRows(longer, tenant), domain, environment);
      }
    }
  }

  lemma {:induction false} LogPrefix(rows: seq<Row>, n: nat, domain: Reference, environment: Reference)
    requires n <= |rows| && LogLinks(rows, domain, environment)
    ensures LogLinks(rows[..n], domain, environment)
    decreases |rows|
  {
    hide LogLinks, RowAccepted;
    if n < |rows| {
      var last := |rows| - 1;
      assert rows == rows[..last] + [rows[last]] && rows[..last][..n] == rows[..n];
      LogGrows(rows[..last], rows[last], domain, environment);
      LogPrefix(rows[..last], n, domain, environment);
    } else {
      assert rows[..n] == rows;
    }
  }

  /** The roots the walk has reached after some rows. */
  ghost predicate RootsReached(roots: map<Reference, Root>, rows: seq<Row>) {
    forall tenant :: RootOf(TenantRows(rows, tenant)) == if tenant in roots then roots[tenant] else Zero
  }

  lemma RootsStep(roots: map<Reference, Root>, rows: seq<Row>, row: Row)
    requires RootsReached(roots, rows)
    ensures RootsReached(roots[row.columns.tenant := row.hash], rows + [row])
  {
    var longer := rows + [row];
    assert longer[..|longer| - 1] == rows;
    forall tenant
      ensures TenantRows(longer, tenant) ==
        if tenant == row.columns.tenant then TenantRows(rows, tenant) + [row] else TenantRows(rows, tenant)
    {
    }
  }

  /** The walk over the rows accepts exactly when every tenant's chain links. */
  method VerifyAuditRows(rows: seq<Row>, domain: Reference, environment: Reference) returns (ok: bool)
    ensures ok <==> LogLinks(rows, domain, environment)
  {
    hide LogLinks, TenantRows, RootsReached;
    NothingWalked(domain, environment);
    var roots: map<Reference, Root> := map[];
    var i := 0;
    while i < |rows|
      invariant i <= |rows|
      invariant LogLinks(rows[..i], domain, environment) && RootsReached(roots, rows[..i])
    {
      var row := rows[i];
      var expected := if row.columns.tenant in roots then roots[row.columns.tenant] else Zero;
      RootReached(roots, rows[..i], row.columns.tenant);
      LogGrows(rows[..i], row, domain, environment);
      RootsStep(roots, rows[..i], row);
      assert rows[..i] + [row] == rows[..i + 1];
      if !RowAccepted(row, expected, domain, environment) {
        if LogLinks(rows, domain, environment) {
          LogPrefix(rows, i + 1, domain, environment);
        }
        return false;
      }
      roots := roots[row.columns.tenant := row.hash];
      i := i + 1;
    }
    assert rows[..i] == rows;
    ok := true;
  }

  lemma NothingWalked(domain: Reference, environment: Reference)
    ensures LogLinks([], domain, environment) && RootsReached(map[], [])
  {
  }

  lemma RootReached(roots: map<Reference, Root>, rows: seq<Row>, tenant: Reference)
    requires RootsReached(roots, rows)
    ensures RootOf(TenantRows(rows, tenant)) == if tenant in roots then roots[tenant] else Zero
  {
    hide TenantRows;
  }

  // ---------------------------------------------------------------- what is written passes, and means its payloads

  /** Every log that transactions of one domain and environment write passes the walk. */
  lemma {:induction false} WrittenLogLinks(payloads: seq<Payload>, domain: Reference, environment: Reference)
    requires forall i :: 0 <= i < |payloads| ==> payloads[i].columns.domain == domain && payloads[i].columns.environment == environment
    ensures LogLinks(LogOf(payloads), domain, environment)
  {
    hide LogLinks;
    if payloads == [] {
      NothingWalked(domain, environment);
    } else {
      var last := |payloads| - 1;
      WrittenLogLinks(payloads[..last], domain, environment);
      LogGrows(LogOf(payloads[..last]), NextRow(LogOf(payloads[..last]), payloads[last]), domain, environment);
    }
  }

  function Payloads(rows: seq<Row>): seq<Payload> {
    seq(|rows|, i requires 0 <= i < |rows| => rows[i].payload)
  }

  lemma {:induction false} RootDecides(a: seq<Row>, b: seq<Row>, domain: Reference, environment: Reference)
    requires ChainLinks(a, domain, environment) && ChainLinks(b, domain, environment) && RootOf(a) == RootOf(b)
    ensures Payloads(a) == Payloads(b)
    decreases |a|
  {
    if a != [] {
      assert RowLinks(a, |a| - 1, domain, environment);
    }
    if b != [] {
      assert RowLinks(b, |b| - 1, domain, environment);
    }
    if a != [] && b != [] {
      var m, n := |a| - 1, |b| - 1;
      ChainFront(a, domain, environment);
      ChainFront(b, domain, environment);
      assert RootOf(a[..m]) == a[m].previous && RootOf(b[..n]) == b[n].previous;
      RootDecides(a[..m], b[..n], domain, environment);
      assert Payloads(a) == Payloads(a[..m]) + [a[m].payload];
      assert Payloads(b) == Payloads(b[..n]) + [b[n].payload];
    }
  }

  lemma ChainFront(chain: seq<Row>, domain: Reference, environment: Reference)
    requires ChainLinks(chain, domain, environment) && chain != []
    ensures ChainLinks(chain[..|chain| - 1], domain, environment)
  {
    var front := chain[..|chain| - 1];
    forall i | 0 <= i < |front|
      ensures RowLinks(front, i, domain, environment)
    {
      assert RowLinks(chain, i, domain, environment);
    }
  }

  /**
    The walk accepts exactly the logs that transactions of its domain and environment write:
    those that replaying their own payloads gives back.
   */
  lemma {:induction false} VerifiedIsWritten(rows: seq<Row>, domain: Reference, environment: Reference)
    ensures LogLinks(rows, domain, environment) <==>
      && LogOf(Payloads(rows)) == rows
      && forall i :: 0 <= i < |rows| ==> rows[i].payload.columns.domain == domain && rows[i].payload.columns.environment == environment
  {
    hide LogLinks, TenantRows;
    if rows == [] {
      NothingWalked(domain, environment);
    } else {
      var last := |rows| - 1;
      var front := rows[..last];
      assert rows == front + [rows[last]];
      VerifiedIsWritten(front, domain, environment);
      LogGrows(front, rows[last], domain, environment);
      assert Payloads(rows)[..last] == Payloads(front);
      assert LogOf(Payloads(rows)) == Written(LogOf(Payloads(front)), rows[last].payload);
      assert LogOf(Payloads(rows))[..|LogOf(Payloads(front))|] == LogOf(Payloads(front));
      WrittenLength(Payloads(front));
    }
  }

  lemma {:induction false} WrittenLength(payloads: seq<Payload>)
    ensures |LogOf(payloads)| == |payloads|
  {
    hide NextRow;
    if payloads != [] {
      WrittenLength(payloads[..|payloads| - 1]);
    }
  }

  /**
    Two verified logs end in the same root for a tenant exactly when they hold the same
    payloads for it, in the same order; equal roots even force equal lengths.
   */
  lemma EqualRootsEqualPayloads(a: seq<Row>, b: seq<Row>, tenant: Reference, domain: Reference, environment: Reference)
    requires LogLinks(a, domain, environment) && LogLinks(b, domain, environment)
    ensures RootOf(TenantRows(a, tenant)) == RootOf(TenantRows(b, tenant)) <==>
      Payloads(TenantRows(a, tenant)) == Payloads(TenantRows(b, tenant))
  {
    var x, y := TenantRows(a, tenant), TenantRows(b, tenant);
    assert ChainLinks(x, domain, environment) && ChainLinks(y, domain, environment);
    if RootOf(x) == RootOf(y) {
      RootDecides(x, y, domain, environment);
    }
    if Payloads(x) == Payloads(y) {
      PayloadsDecide(x, y, domain, environment);
    }
  }

  lemma {:induction false} PayloadsDecide(a: seq<Row>, b: seq<Row>, domain: Reference, environment: Reference)
    requires ChainLinks(a, domain, environment) && ChainLinks(b, domain, environment) && Payloads(a) == Payloads(b)
    ensures |a| == |b| && RootOf(a) == RootOf(b)
    decreases |a|
  {
    assert |a| == |Payloads(a)| && |b| == |Payloads(b)|;
    if a != [] {
      var last := |a| - 1;
      assert RowLinks(a, last, domain, environment) && RowLinks(b, last, domain, environment);
      assert a[last].payload == Payloads(a)[last] == Payloads(b)[last] == b[last].payload;
      ChainFront(a, domain, environment);
      ChainFront(b, domain, environment);
      assert Payloads(a[..last]) == Payloads(a)[..last] && Payloads(b[..last]) == Payloads(b)[..last];
      PayloadsDecide(a[..last], b[..last], domain, environment);
    }
  }
}
