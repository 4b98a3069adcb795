/** What a forged batch is worth: its counters, its size, its totals, and its way through the
    operations table back to the node. */
module Batches {
  import opened Wrappers
  import opened Decimal
  import opened Operations
  import opened Tokens
  import opened Forge

  /** How many operations of the batch are reveals: the reveal's own estimate decides. */
  function RevealCount(req: Request, a: Answers): nat {
    if RevealIfNeeded(req, a).Ok? then |RevealIfNeeded(req, a).value| else 0
  }

  /** The batch: its reveals, then one transaction for each estimation. */
  lemma BatchShape(req: Request, a: Answers)
    requires ParametersGiven(req, a) && Batch(req, a).Ok?
    ensures a.parameters.Ok? && a.estimations.Ok? && AccountCounter(a.counter).Some?
    ensures RevealIfNeeded(req, a).Ok? && |OwnEstimations(req, a.estimations.value)| <= |req.transactions|
    ensures var own := OwnEstimations(req, a.estimations.value);
            Batch(req, a).value == RevealIfNeeded(req, a).value
              + TransactionsUpTo(req, a.parameters.value, a.estimations.value, AccountCounter(a.counter).value, |own|)
    ensures RevealCount(req, a) <= 1
    ensures RevealCount(req, a) == 1 ==>
              && RevealIfNeeded(req, a).value[0].content.Reveal?
              && AccountCounter(a.revealCounter).Some?
              && RevealIfNeeded(req, a).value[0].content.counter
                 == ToString(Plus(AccountCounter(a.revealCounter).value, Some(1)))
  {
  }

  /** The i-th transaction of the batch. */
  lemma TransactionAt(req: Request, a: Answers, i: nat)
    requires ParametersGiven(req, a) && Batch(req, a).Ok? && i < |Batch(req, a).value| - RevealCount(req, a)
    ensures a.parameters.Ok? && a.estimations.Ok? && AccountCounter(a.counter).Some?
    ensures i < |req.transactions| == |a.parameters.value| && i < |OwnEstimations(req, a.estimations.value)|
    ensures Batch(req, a).value[RevealCount(req, a) + i] ==
            TransactionOperation(req.transactions[i], req.source, a.parameters.value[i],
                                 OwnEstimations(req, a.estimations.value)[i],
                                 CounterAt(req, a.estimations.value, AccountCounter(a.counter).value, i))
  {
    hide TransactionOperation, CounterAt;
    BatchShape(req, a);
  }

  lemma TransactionCarries(
    tx: TransactionDetails, source: string, parameters: Option<Json>, e: Estimate, counter: Number)
    ensures var c := TransactionOperation(tx, source, parameters, e, counter).content;
            c.Transaction? && c.destination == tx.contractAddress && c.parameters == parameters
            && c.counter == ToString(counter)
  {
  }

  // ----- counters ---------------------------------------------------------------------------------------

  /** The node that estimates the batch adds a reveal just when the reveal estimate asks for one. */
  predicate Consistent(req: Request, a: Answers) {
    a.estimations.Ok? && (RevealCount(req, a) == 1 <==> EstimatesReveal(req, a.estimations.value))
  }

  /** The i-th operation carries the account's counter plus i + 1. */
  predicate CountsFrom(ops: seq<Operation>, c: int) {
    forall i :: 0 <= i < |ops| ==> ops[i].content.counter == PrintInt(c + 1 + i)
  }

  lemma PrintIsInjective(m: int, n: int)
    requires PrintInt(m) == PrintInt(n)
    ensures m == n
  {
    ParseOfPrint(m);
    ParseOfPrint(n);
  }

  /** With one account counter c, the reveal comes first, and the batch is counted c + 1, c + 2, … in
      order exactly when the answers about the reveal are consistent, or no transaction is left. */
  lemma CountersInOrder(req: Request, a: Answers, c: int)
    requires ParametersGiven(req, a) && Batch(req, a).Ok?
    requires AccountCounter(a.counter) == Some(Some(c)) && a.revealCounter == a.counter
    ensures var b, n := Batch(req, a).value, RevealCount(req, a);
            && (forall i :: 0 <= i < |b| ==> (b[i].content.Reveal? <==> i == 0 && n == 1))
            && (CountsFrom(b, c) <==> Consistent(req, a) || |b| == n)
  {
    hide PrintInt, ParseInt, Batch, RevealIfNeeded, TransactionOperation, OwnEstimations;
    BatchShape(req, a);
    var b, n := Batch(req, a).value, RevealCount(req, a);
    var shift := if EstimatesReveal(req, a.estimations.value) then 1 else 0;
    forall i | n <= i < |b|
      ensures b[i].content.Transaction? && b[i].content.counter == PrintInt(c + 1 + shift + (i - n))
    {
      TransactionAt(req, a, i - n);
      TransactionCarries(req.transactions[i - n], req.source, a.parameters.value[i - n],
                         OwnEstimations(req, a.estimations.value)[i - n],
                         CounterAt(req, a.estimations.value, AccountCounter(a.counter).value, i - n));
    }
    if CountsFrom(b, c) && |b| > n {
      assert b[n].content.counter == PrintInt(c + 1 + n);
      PrintIsInjective(c + 1 + n, c + 1 + shift);
    }
  }

  // ----- size -------------------------------------------------------------------------------------------

  /** An admitted request never makes a batch of more than five operations, whatever the node answers;
      no transaction is dropped exactly when there is an estimation for each of them. */
  lemma BatchIsBounded(req: Request, a: Answers)
    requires ParametersGiven(req, a) && Batch(req, a).Ok? && Admit(req).Ok?
    ensures var b, n := Batch(req, a).value, RevealCount(req, a);
            && |b| <= 5
            && (|b| == n + |req.transactions| <==> |OwnEstimations(req, a.estimations.value)| == |req.transactions|)
            && (forall i :: n <= i < |b| ==>
                  i - n < |req.transactions|
                  && b[i].content.Transaction?
                  && b[i].content.destination == req.transactions[i - n].contractAddress
                  && b[i].content.parameters == a.parameters.value[i - n])
  {
    hide TransactionOperation, CounterAt;
    BatchShape(req, a);
    var b, n := Batch(req, a).value, RevealCount(req, a);
    forall i | n <= i < |b|
      ensures b[i].content.Transaction? && b[i].content.destination == req.transactions[i - n].contractAddress
              && b[i].content.parameters == a.parameters.value[i - n]
    {
      TransactionAt(req, a, i - n);
      TransactionCarries(req.transactions[i - n], req.source, a.parameters.value[i - n],
                         OwnEstimations(req, a.estimations.value)[i - n],
                         CounterAt(req, a.estimations.value, AccountCounter(a.counter).value, i - n));
    }
  }

  // ----- totals -----------------------------------------------------------------------------------------

  function FeeOfRows(rows: seq<Row>): Number {
    if rows == [] then Some(0) else Plus(FeeOfRows(rows[..|rows| - 1]), rows[|rows| - 1].fee)
  }

  function GasLimitOfRows(rows: seq<Row>): Number {
    if rows == [] then Some(0) else Plus(GasLimitOfRows(rows[..|rows| - 1]), rows[|rows| - 1].gasLimit)
  }

  /** The batch's numbers are written as decimals: whatever a row takes was canonical. */
  lemma BatchIsCanonical(req: Request, a: Answers, i: nat)
    requires ParametersGiven(req, a) && Batch(req, a).Ok? && i < |Batch(req, a).value|
    requires Insertable(Batch(req, a).value[i], CallerId(req))
    ensures CanonicalContent(Batch(req, a).value[i].content)
  {
    hide ParseInt, Print, IsSpace, Canonical, PrintInt;
    BatchShape(req, a);
    forall n ensures Canonical(PrintInt(n)) { ParseOfPrint(n); }
    NotANumber();
    ZeroIsCanonical();
  }

  lemma NotANumber()
    ensures ParseInt("NaN").None?
  {
  }

  lemma ZeroIsCanonical()
    ensures Canonical("0")
  {
  }

  lemma {:induction false} TotalsOf(ops: seq<Operation>, branch: string, job: nat, callerId: string)
    requires AllInsertable(ops, callerId) && forall i :: 0 <= i < |ops| ==> CanonicalContent(ops[i].content)
    ensures var rows := RowsFor(ops, branch, job, callerId);
            && FeeOf(ops).Some? && FeeOf(ops) == FeeOfRows(rows)
            && GasLimitOfRows(rows).Some?
            && GasOf(ops) == Some(GasLimitOfRows(rows).value - GAS_LIMIT_MARGIN * |rows|)
  {
    hide ParseInt, Canonical;
    if ops != [] {
      TotalsOf(ops[..|ops| - 1], branch, job, callerId);
      assert RowsFor(ops, branch, job, callerId)[..|ops| - 1] == RowsFor(ops[..|ops| - 1], branch, job, callerId);
    }
  }

  /** The fee and the gas reported for a forged job are the sums over its rows, the gas less a margin
      for each row. */
  lemma ReportedTotalsAreRowSums(req: Request, a: Answers, job: nat)
    requires ParametersGiven(req, a) && Batch(req, a).Ok? && AllInsertable(Batch(req, a).value, CallerId(req))
    requires a.branch.Ok?
    ensures var ops := Batch(req, a).value;
            var rows := RowsFor(ops, a.branch.value, job, CallerId(req));
            && FeeOf(ops).Some? && FeeOf(ops) == FeeOfRows(rows)
            && GasLimitOfRows(rows).Some?
            && GasOf(ops) == Some(GasLimitOfRows(rows).value - 100 * |rows|)
  {
    var ops := Batch(req, a).value;
    forall i | 0 <= i < |ops| ensures CanonicalContent(ops[i].content) {
      BatchIsCanonical(req, a, i);
    }
    TotalsOf(ops, a.branch.value, job, CallerId(req));
  }

  // ----- persistence --------------------------------------------------------------------------------------

  /** The operations that a row can hold without loss are the reveals and the transactions whose node
      parameters are given. */
  lemma FaithfulAt(req: Request, a: Answers, i: nat)
    requires ParametersGiven(req, a) && Batch(req, a).Ok? && i < |Batch(req, a).value|
    requires Insertable(Batch(req, a).value[i], CallerId(req))
    ensures a.parameters.Ok? && i - RevealCount(req, a) < |a.parameters.value|
    ensures Faithful(Batch(req, a).value[i].content) <==>
            i < RevealCount(req, a) || a.parameters.value[i - RevealCount(req, a)].Some?
  {
    hide CanonicalContent, Insertable, TransactionOperation, CounterAt;
    BatchShape(req, a);
    BatchIsCanonical(req, a, i);
    if i >= RevealCount(req, a) {
      var k := i - RevealCount(req, a);
      TransactionAt(req, a, k);
      TransactionCarries(req.transactions[k], req.source, a.parameters.value[k],
                         OwnEstimations(req, a.estimations.value)[k],
                         CounterAt(req, a.estimations.value, AccountCounter(a.counter).value, k));
    }
  }

  /** What inject reads for a forged job, at any later time, is exactly what was forged, if and only if
      the node parameters of every transaction in the batch were given. */
  lemma ForgedIsWhatIsInjected(req: Request, a: Answers, before: seq<Row>, after: seq<Row>, job: nat)
    requires ParametersGiven(req, a) && Batch(req, a).Ok? && AllInsertable(Batch(req, a).value, CallerId(req))
    requires a.branch.Ok? && a.parameters.Ok?
    requires forall i :: 0 <= i < |before| ==> before[i].job != job
    requires forall i :: 0 <= i < |after| ==> after[i].job != job
    ensures var ops, n := Batch(req, a).value, RevealCount(req, a);
            var stored := before + RowsFor(ops, a.branch.value, job, CallerId(req)) + after;
            && |ops| - n <= |a.parameters.value|
            && (ContentsOf(RowsOf(stored, job)) == Ok(Contents(ops)) <==>
                forall i :: 0 <= i < |ops| - n ==> a.parameters.value[i].Some?)
  {
    hide Faithful, ContentsOf, RowsOf, RowsFor, Insertable, Batch, RevealIfNeeded;
    var ops, n := Batch(req, a).value, RevealCount(req, a);
    StoredOperationsComeBack(before, ops, after, a.branch.value, job, CallerId(req));
    if |ops| > 0 { FaithfulAt(req, a, |ops| - 1); }
    forall i | 0 <= i < |ops| ensures Faithful(ops[i].content) <==> i < n || a.parameters.value[i - n].Some? {
      FaithfulAt(req, a, i);
    }
    forall i | 0 <= i < |ops| - n ensures a.parameters.value[i].Some? <==> Faithful(ops[n + i].content) {
    }
  }
}
