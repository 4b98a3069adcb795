/** Estimating a batch (src/lib/jobs/estimate-operation.ts): a second computation of counters, limits
    and fees, which agrees with what forge does. */
module Estimation {
  import opened Wrappers
  import opened Decimal
  import opened Operations
  import opened Tokens
  import opened Forge
  import opened Batches

  datatype Estimated = Estimated(
    kind: OpKind, source: string, publicKey: Option<string>, destination: Option<string>,
    parameters: Option<Json>, parametersJson: Option<Json>, amount: int, counter: Number,
    suggestedFee: nat, minimalFee: nat, gasEstimation: nat, gasLimit: nat, storageLimit: nat, burnFee: nat)

  /** Math.round(consumedMilligas / 1000) */
  function Gas(e: Estimate): nat {
    (e.consumedMilligas + 500) / 1000
  }

  function RevealEstimated(req: Request, e: Estimate, counter: Number): Estimated {
    Estimated(RevealKind, req.source, req.publicKey, None, None, None, 0, counter,
              e.suggestedFee, e.minimalFee, Gas(e), e.gasLimit, e.storageLimit, e.burnFee)
  }

  function TransactionEstimated(
    tx: TransactionDetails, source: string, parameters: Option<Json>, e: Estimate, counter: Number)
    : Estimated
  {
    Estimated(TransactionKind, source, None, Some(tx.contractAddress), parameters, Some(CreateParametersJson(tx)),
              if Given(tx.amount) then tx.amount.value else 0, counter,
              e.suggestedFee, e.minimalFee, Gas(e), e.gasLimit, e.storageLimit, e.burnFee)
  }

  function EstimatedUpTo(
    req: Request, parameters: seq<Option<Json>>, estimations: seq<Estimate>, account: Number, n: nat)
    : seq<Estimated>
    requires |parameters| == |req.transactions| && n <= |OwnEstimations(req, estimations)| && n <= |req.transactions|
  {
    seq(n, i requires 0 <= i < n =>
      TransactionEstimated(req.transactions[i], req.source, parameters[i], OwnEstimations(req, estimations)[i],
                           CounterAt(req, estimations, account, i)))
  }

  function EstimatesOf(req: Request, a: Answers): Result<seq<Estimated>, ForgeError>
    requires ParametersGiven(req, a)
  {
    if AccountCounter(a.counter).None? then Err(AddressNotFound)
    else if a.parameters.Err? then Err(a.parameters.error)
    else if a.estimations.Err? then Err(if a.estimations.error then TezosOperationFailed else AddressNotRevealed)
    else
      var account, all := AccountCounter(a.counter).value, a.estimations.value;
      var own := OwnEstimations(req, all);
      if EstimatesReveal(req, all) && |all| > MAX_OPERATIONS_PER_BATCH then Err(MaxOperationsPerBatch)
      else if |own| > |req.transactions| then Err(TypeError)
      else
        Ok((if EstimatesReveal(req, all) then [RevealEstimated(req, all[0], Plus(account, Some(1)))] else [])
           + EstimatedUpTo(req, a.parameters.value, all, account, |own|))
  }

  method EstimateOperation(req: Request, a: Answers) returns (r: Result<seq<Estimated>, ForgeError>)
    requires ParametersGiven(req, a)
    ensures r == EstimatesOf(req, a)
  {
    hide RevealEstimated, TransactionEstimated, ParseInt;
    if a.counter.None? || a.counter.value == "" { return Err(AddressNotFound); }
    var counter := ParseInt(a.counter.value);
    ghost var account := counter;
    if a.parameters.Err? { return Err(a.parameters.error); }
    if a.estimations.Err? { return Err(if a.estimations.error then TezosOperationFailed else AddressNotRevealed); }
    var parameters, estimations := a.parameters.value, a.estimations.value;
    var result: seq<Estimated> := [];
    if req.isReveal && |estimations| > |req.transactions| {
      if |estimations| > MAX_OPERATIONS_PER_BATCH { return Err(MaxOperationsPerBatch); }
      counter := Plus(counter, Some(1));
      result := [RevealEstimated(req, estimations[0], counter)];
      estimations := estimations[1..];
    }
    ghost var front := result;
    for i := 0 to |estimations|
      invariant i <= |req.transactions|
      invariant counter == Plus(account, Some((if EstimatesReveal(req, a.estimations.value) then 1 else 0) + i))
      invariant result == front + EstimatedUpTo(req, parameters, a.estimations.value, account, i)
    {
      if i >= |req.transactions| { return Err(TypeError); }
      counter := Plus(counter, Some(1));
      var estimated := TransactionEstimated(req.transactions[i], req.source, parameters[i], estimations[i], counter);
      result := result + [estimated];
    }
    return Ok(result);
  }

  // ----- agreement with forge -----------------------------------------------------------------------------

  /** The node answers every question, once for the account, and consistently about the reveal. */
  predicate FullAnswers(req: Request, a: Answers) {
    && ParametersGiven(req, a) && a.parameters.Ok?
    && AccountCounter(a.counter).Some? && a.revealCounter == a.counter
    && RevealIfNeeded(req, a).Ok? && Consistent(req, a)
    && |OwnEstimations(req, a.estimations.value)| == |req.transactions|
  }

  /** A forged operation and its estimate say the same: kind, source, counter, and for a transaction the
      limits, the parameters, the amount, and the fee unless the request gives one. */
  predicate Agrees(op: Operation, e: Estimated, fee: Option<int>) {
    var c := op.content;
    && c.source == e.source && c.counter == ToString(e.counter)
    && (c.Reveal? <==> e.kind == RevealKind)
    && (c.Reveal? ==> c.publicKey == e.publicKey)
    && (c.Transaction? ==>
          && c.gasLimit == PrintInt(e.gasLimit) && c.storageLimit == PrintInt(e.storageLimit)
          && e.destination == Some(c.destination) && c.parameters == e.parameters
          && op.parametersJson == e.parametersJson
          && c.amount == PrintInt(e.amount)
          && c.fee == PrintInt(if Given(fee) then fee.value else e.suggestedFee))
  }

  lemma TransactionAgrees(
    tx: TransactionDetails, source: string, parameters: Option<Json>, e: Estimate, counter: Number)
    ensures Agrees(TransactionOperation(tx, source, parameters, e, counter),
                   TransactionEstimated(tx, source, parameters, e, counter), tx.fee)
  {
    assert Print(0) == "0";
  }

  /** Both computations get as far as the size check, which they make in different terms. */
  lemma RefusedTogether(req: Request, a: Answers)
    requires Admit(req).Ok? && FullAnswers(req, a)
    ensures EstimatesOf(req, a) == Err(MaxOperationsPerBatch) <==> Batch(req, a) == Err(MaxOperationsPerBatch)
    ensures EstimatesOf(req, a).Ok? <==> Batch(req, a).Ok?
    ensures EstimatesOf(req, a).Err? <==> |req.transactions| == MAX_OPERATIONS_PER_BATCH && RevealCount(req, a) == 1
    ensures EstimatesOf(req, a).Ok? ==>
              |EstimatesOf(req, a).value| == |Batch(req, a).value| == RevealCount(req, a) + |req.transactions|
  {
    hide TransactionOperation, TransactionEstimated, CounterAt, BuildReveal;
    if Batch(req, a).Ok? { BatchShape(req, a); }
  }

  lemma EstimatedTransactionAt(req: Request, a: Answers, i: nat)
    requires FullAnswers(req, a) && EstimatesOf(req, a).Ok? && i < |req.transactions|
    requires |EstimatesOf(req, a).value| == RevealCount(req, a) + |req.transactions|
    ensures EstimatesOf(req, a).value[RevealCount(req, a) + i] ==
            TransactionEstimated(req.transactions[i], req.source, a.parameters.value[i],
                                 OwnEstimations(req, a.estimations.value)[i],
                                 CounterAt(req, a.estimations.value, AccountCounter(a.counter).value, i))
  {
    hide TransactionEstimated, RevealEstimated, CounterAt, RevealIfNeeded, AccountCounter, CreateParametersJson;
    var all, own := a.estimations.value, OwnEstimations(req, a.estimations.value);
    var account := AccountCounter(a.counter).value;
    var front := if EstimatesReveal(req, all) then [RevealEstimated(req, all[0], Plus(account, Some(1)))] else [];
    var transactions := EstimatedUpTo(req, a.parameters.value, all, account, |own|);
    assert EstimatesOf(req, a).value == front + transactions;
    assert (front + transactions)[|front| + i] == transactions[i];
  }

  lemma RevealAgrees(req: Request, a: Answers)
    requires FullAnswers(req, a) && Batch(req, a).Ok? && EstimatesOf(req, a).Ok? && RevealCount(req, a) == 1
    ensures |Batch(req, a).value| > 0 && |EstimatesOf(req, a).value| > 0
    ensures Agrees(Batch(req, a).value[0], EstimatesOf(req, a).value[0], None)
  {
    hide ToString, TransactionEstimated;
    BatchShape(req, a);
    var front := RevealIfNeeded(req, a).value[0];
    assert Batch(req, a).value[0] == front && front.content.source == req.source;
    assert front.content.publicKey == req.publicKey;
  }

  lemma EstimatedAt(req: Request, a: Answers, i: nat)
    requires FullAnswers(req, a) && Batch(req, a).Ok? && EstimatesOf(req, a).Ok?
    requires i < |Batch(req, a).value| == |EstimatesOf(req, a).value| == RevealCount(req, a) + |req.transactions|
    ensures Agrees(Batch(req, a).value[i], EstimatesOf(req, a).value[i],
                   if i < RevealCount(req, a) then None else req.transactions[i - RevealCount(req, a)].fee)
  {
    hide TransactionOperation, TransactionEstimated, CounterAt, Batch, EstimatesOf, Agrees;
    BatchShape(req, a);
    var n := RevealCount(req, a);
    if i < n {
      RevealAgrees(req, a);
    } else {
      var k := i - n;
      TransactionAt(req, a, k);
      EstimatedTransactionAt(req, a, k);
      TransactionAgrees(req.transactions[k], req.source, a.parameters.value[k],
                        OwnEstimations(req, a.estimations.value)[k],
                        CounterAt(req, a.estimations.value, AccountCounter(a.counter).value, k));
      assert n + k == i;
    }
  }

  /** On an admitted request and the same full answers, estimate refuses exactly the batches that forge
      refuses, as too large, and nothing else; and otherwise the two agree operation by operation. */
  lemma EstimateAgreesWithForge(req: Request, a: Answers)
    requires Admit(req).Ok? && FullAnswers(req, a)
    ensures EstimatesOf(req, a) == Err(MaxOperationsPerBatch) <==> Batch(req, a) == Err(MaxOperationsPerBatch)
    ensures EstimatesOf(req, a).Ok? <==> Batch(req, a).Ok?
    ensures EstimatesOf(req, a).Err? <==> |req.transactions| == MAX_OPERATIONS_PER_BATCH && RevealCount(req, a) == 1
    ensures EstimatesOf(req, a).Ok? ==>
              var es, ops, n := EstimatesOf(req, a).value, Batch(req, a).value, RevealCount(req, a);
              && |es| == |ops| == n + |req.transactions|
              && forall i :: 0 <= i < |ops| ==>
                   Agrees(ops[i], es[i], if i < n then None else req.transactions[i - n].fee)
  {
    hide EstimatesOf, Batch, Agrees, RevealCount;
    RefusedTogether(req, a);
    if EstimatesOf(req, a).Ok? {
      forall i | 0 <= i < |Batch(req, a).value|
        ensures Agrees(Batch(req, a).value[i], EstimatesOf(req, a).value[i],
                       if i < RevealCount(req, a) then None else req.transactions[i - RevealCount(req, a)].fee)
      {
        EstimatedAt(req, a, i);
      }
    }
  }
}
