/** What a forged batch and its estimate say, field by field, in terms of the request and the node's
    answers (src/lib/jobs/forge-operation.ts, src/lib/jobs/estimate-operation.ts). */
module ForgedContents {
  import opened Wrappers
  import opened Decimal
  import opened Operations
  import opened Tokens
  import opened Forge
  import opened Batches
  import opened Estimation

  /** The request asks for a reveal and has the key for it. */
  predicate AsksForReveal(req: Request) {
    req.isReveal && req.publicKey.Some?
  }

  predicate IsUnknown(counter: Option<string>) {
    counter == None || counter == Some("")
  }

  /** The estimations of the batch begin with one for a reveal. */
  function Skipped(req: Request, a: Answers): nat
    requires a.estimations.Ok?
  {
    if req.isReveal && |a.estimations.value| > |req.transactions| then 1 else 0
  }

  function PaidFee(fee: Option<int>, e: Estimate): int {
    match fee
    case Some(f) => if f != 0 then f else e.suggestedFee
    case None => e.suggestedFee
  }

  function Amount(tx: TransactionDetails): int {
    match tx.amount case Some(n) => n case None => 0
  }

  /** The readable form: entry point and value, where 0 stands for a value that is not given, null,
      false, zero or empty. */
  function Readable(tx: TransactionDetails): Json {
    var value := match tx.entryPointParams
      case None => JNum(0.0)
      case Some(v) => if v in {JNull, JBool(false), JStr("")} then JNum(0.0) else v;
    JObj([Field("entrypoint", JStr(tx.entryPoint)), Field("value", JObj([Field(tx.entryPoint, value)]))])
  }

  function Caller(req: Request): string {
    match req.callerId case Some(id) => id case None => ""
  }

  // ----- forge --------------------------------------------------------------------------------------------

  /** The first thing that stops a request decides its error, and nothing else stops it. */
  lemma FirstStop(req: Request, a: Answers)
    requires ParametersGiven(req, a)
    ensures var withReveal := AsksForReveal(req) && a.revealEstimate.Ok? && a.revealEstimate.value.Some?;
            var stop: Option<ForgeError> :=
              if AsksForReveal(req) && a.revealEstimate.Err? then Some(RevealEstimateFailed)
              else if withReveal && IsUnknown(a.revealCounter) then Some(AddressNotFound)
              else if withReveal && |req.transactions| == 5 then Some(MaxOperationsPerBatch)
              else if IsUnknown(a.counter) then Some(AddressNotFound)
              else if a.parameters.Err? then Some(a.parameters.error)
              else if a.estimations.Err? then
                Some(if a.estimations.error then TezosOperationFailed else AddressNotRevealed)
              else if |a.estimations.value| > Skipped(req, a) + |req.transactions| then Some(TypeError)
              else None;
            && (Batch(req, a).Ok? <==> stop.None?)
            && (stop.Some? ==> Batch(req, a) == Err(stop.value))
    ensures Batch(req, a).Ok? ==>
              RevealCount(req, a)
              == if AsksForReveal(req) && a.revealEstimate.Ok? && a.revealEstimate.value.Some? then 1 else 0
  {
    hide TransactionOperation, ParseInt, PrintInt;
  }

  /** Requests of more than five operations, and reveals without a key, are turned away, and only these. */
  lemma AdmittedExactly(req: Request)
    ensures Admit(req).Ok? <==> |req.transactions| <= 5 && (req.isReveal ==> req.publicKey.Some?)
    ensures Admit(req) == Err(MaxOperationsPerBatch) <==> |req.transactions| > 5
  {
  }

  lemma TransactionReadsBack(
    tx: TransactionDetails, source: string, parameters: Option<Json>, e: Estimate, counter: Number)
    ensures var op := TransactionOperation(tx, source, parameters, e, counter);
            var c := op.content;
            && c.Transaction? && c.source == source && c.destination == tx.contractAddress
            && c.parameters == parameters && op.parametersJson == Some(Readable(tx))
            && ParseInt(c.gasLimit) == Some(e.gasLimit) && ParseInt(c.storageLimit) == Some(e.storageLimit)
            && ParseInt(c.fee) == Some(PaidFee(tx.fee, e)) && ParseInt(c.amount) == Some(Amount(tx))
            && ParseInt(c.counter) == counter
  {
    hide ParseInt, PrintInt, Canonical, Print;
    ParseOfPrint(e.gasLimit);
    ParseOfPrint(e.storageLimit);
    ParseOfPrint(PaidFee(tx.fee, e));
    ParseOfPrint(Amount(tx));
    if counter.Some? { ParseOfPrint(counter.value); } else { NaNReadsBack(); }
    ZeroIsPrinted();
  }

  lemma ZeroIsPrinted()
    ensures PrintInt(0) == "0"
  {
  }

  /** The rows of a forged batch. A reveal has the request's account and key and the numbers of its own
      estimate; the k-th transaction has what the request asks for, the parameters made of it, and the
      numbers of its estimation; each is counted on from the account. */
  lemma ForgedRow(req: Request, a: Answers, i: nat, job: nat)
    requires ParametersGiven(req, a) && Batch(req, a).Ok? && a.branch.Ok? && i < |Batch(req, a).value|
    requires Insertable(Batch(req, a).value[i], CallerId(req))
    ensures a.parameters.Ok? && a.estimations.Ok? && RevealCount(req, a) <= 1
    ensures var row := RowsFor(Batch(req, a).value, a.branch.value, job, CallerId(req))[i];
            if i < RevealCount(req, a) then
              && a.revealEstimate.Ok? && a.revealEstimate.value.Some? && a.revealCounter.Some?
              && ParseInt(a.revealCounter.value).Some?
              && var e := a.revealEstimate.value.value;
                 row == Row(job, RevealKind, req.source, "", None, None, None, Some(e.suggestedFee),
                            Some(e.storageLimit), Some(e.gasLimit), Some(ParseInt(a.revealCounter.value).value + 1),
                            Some(a.branch.value), Caller(req), req.publicKey)
            else
              var k := i - RevealCount(req, a);
              && k < |req.transactions| == |a.parameters.value| && Skipped(req, a) + k < |a.estimations.value|
              && a.counter.Some? && ParseInt(a.counter.value).Some?
              && var tx, e := req.transactions[k], a.estimations.value[Skipped(req, a) + k];
                 var parameters := a.parameters.value[k];
                 row == Row(job, TransactionKind, req.source, tx.contractAddress,
                            if parameters.Some? then Some(JsonText(parameters.value)) else None,
                            Some(JsonText(Readable(tx))), Some(Amount(tx)), Some(PaidFee(tx.fee, e)),
                            Some(e.storageLimit), Some(e.gasLimit),
                            Some(ParseInt(a.counter.value).value + Skipped(req, a) + 1 + k),
                            Some(a.branch.value), Caller(req), None)
  {
    hide ParseInt, PrintInt, Canonical, TransactionOperation, BuildReveal, Readable;
    BatchShape(req, a);
    if i < RevealCount(req, a) {
      RevealReadsBack(a, req.source, req.publicKey.value, None);
    } else {
      var k := i - RevealCount(req, a);
      TransactionAt(req, a, k);
      TransactionReadsBack(req.transactions[k], req.source, a.parameters.value[k],
                           OwnEstimations(req, a.estimations.value)[k],
                           CounterAt(req, a.estimations.value, AccountCounter(a.counter).value, k));
    }
  }

  /** A number that an INT column takes. */
  predicate HasInt32(n: int) {
    -0x8000_0000 <= n <= 0x7FFF_FFFF
  }

  predicate FeeAndLimitsFit(fee: int, e: Estimate) {
    HasInt32(fee) && e.storageLimit <= 0x7FFF_FFFF && e.gasLimit <= 0x7FFF_FFFF
  }

  /** A forged operation can be stored if and only if its counter is a number, all its numbers have 32 bits,
      and the caller's id has at most 100 characters. */
  lemma StorableExactly(req: Request, a: Answers, i: nat)
    requires ParametersGiven(req, a) && Batch(req, a).Ok? && i < |Batch(req, a).value|
    ensures a.estimations.Ok?
    ensures Insertable(Batch(req, a).value[i], CallerId(req)) <==>
            && |Caller(req)| <= 100
            && if i < RevealCount(req, a) then
                 && a.revealEstimate.Ok? && a.revealEstimate.value.Some? && a.revealCounter.Some?
                 && ParseInt(a.revealCounter.value).Some? && HasInt32(ParseInt(a.revealCounter.value).value + 1)
                 && FeeAndLimitsFit(a.revealEstimate.value.value.suggestedFee, a.revealEstimate.value.value)
               else
                 var k := i - RevealCount(req, a);
                 && k < |req.transactions| && Skipped(req, a) + k < |a.estimations.value|
                 && a.counter.Some? && ParseInt(a.counter.value).Some?
                 && HasInt32(ParseInt(a.counter.value).value + Skipped(req, a) + 1 + k)
                 && HasInt32(Amount(req.transactions[k]))
                 && var e := a.estimations.value[Skipped(req, a) + k];
                    FeeAndLimitsFit(PaidFee(req.transactions[k].fee, e), e)
  {
    hide ParseInt, PrintInt, Canonical, TransactionOperation, BuildReveal, Readable;
    BatchShape(req, a);
    if i < RevealCount(req, a) {
      RevealReadsBack(a, req.source, req.publicKey.value, None);
    } else {
      var k := i - RevealCount(req, a);
      TransactionAt(req, a, k);
      TransactionReadsBack(req.transactions[k], req.source, a.parameters.value[k],
                           OwnEstimations(req, a.estimations.value)[k],
                           CounterAt(req, a.estimations.value, AccountCounter(a.counter).value, k));
    }
  }

  // ----- estimate -----------------------------------------------------------------------------------------

  /** g is m thousandths, rounded to the nearest unit, halves up. */
  predicate IsRounded(g: int, m: int) {
    -500 <= m - 1000 * g < 500
  }

  /** What is estimated: one operation for each of the node's estimations, with its fees and limits and the
      gas in units, counted on from the account; a reveal first, if the node added one, and then the
      transactions of the request in order. */
  lemma EstimateMeans(req: Request, a: Answers, i: nat)
    requires ParametersGiven(req, a) && EstimatesOf(req, a).Ok? && i < |EstimatesOf(req, a).value|
    ensures a.counter.Some? && a.parameters.Ok? && a.estimations.Ok?
    ensures var n, account := Skipped(req, a), ParseInt(a.counter.value);
            && |EstimatesOf(req, a).value| == |a.estimations.value| <= n + |req.transactions|
            && var op, e := EstimatesOf(req, a).value[i], a.estimations.value[i];
               && op.suggestedFee == e.suggestedFee && op.minimalFee == e.minimalFee && op.burnFee == e.burnFee
               && op.gasLimit == e.gasLimit && op.storageLimit == e.storageLimit
               && IsRounded(op.gasEstimation, e.consumedMilligas)
               && op.counter == (if account.Some? then Some(account.value + 1 + i) else None)
               && op.source == req.source
               && (i < n ==>
                     && op.kind == RevealKind && op.publicKey == req.publicKey && op.destination == None
                     && op.parameters == None && op.parametersJson == None && op.amount == 0)
               && (i >= n ==>
                     var tx := req.transactions[i - n];
                     && op.kind == TransactionKind && op.publicKey == None && op.destination == Some(tx.contractAddress)
                     && op.parameters == a.parameters.value[i - n] && op.parametersJson == Some(Readable(tx))
                     && op.amount == Amount(tx))
  {
    hide ParseInt;
    var n := Skipped(req, a);
    assert |OwnEstimations(req, a.estimations.value)| == |a.estimations.value| - n;
    assert AccountCounter(a.counter).value == ParseInt(a.counter.value);
    if i >= n { assert OwnEstimations(req, a.estimations.value)[i - n] == a.estimations.value[i]; }
  }

  /** An estimate stops where forge stops, but for the reveal: it is refused as too large just when the node
      answers with more than five estimations, one of them for a reveal. */
  lemma EstimateStops(req: Request, a: Answers)
    requires ParametersGiven(req, a)
    ensures var stop: Option<ForgeError> :=
              if IsUnknown(a.counter) then Some(AddressNotFound)
              else if a.parameters.Err? then Some(a.parameters.error)
              else if a.estimations.Err? then
                Some(if a.estimations.error then TezosOperationFailed else AddressNotRevealed)
              else if Skipped(req, a) == 1 && |a.estimations.value| > 5 then Some(MaxOperationsPerBatch)
              else if |a.estimations.value| > Skipped(req, a) + |req.transactions| then Some(TypeError)
              else None;
            && (EstimatesOf(req, a).Ok? <==> stop.None?)
            && (stop.Some? ==> EstimatesOf(req, a) == Err(stop.value))
  {
    hide TransactionEstimated, ParseInt;
  }

  /** When estimate and forge get the same estimate of the reveal, they agree on its limits and its fee as
      well. */
  lemma RevealAgreesWithEstimate(req: Request, a: Answers)
    requires Admit(req).Ok? && FullAnswers(req, a) && EstimatesOf(req, a).Ok? && RevealCount(req, a) == 1
    requires a.revealEstimate == Ok(Some(a.estimations.value[0]))
    ensures Batch(req, a).Ok? && |Batch(req, a).value| > 0 && |EstimatesOf(req, a).value| > 0
    ensures var c, e := Batch(req, a).value[0].content, EstimatesOf(req, a).value[0];
            && c.Reveal? && e.kind == RevealKind
            && ParseInt(c.gasLimit) == Some(e.gasLimit) && ParseInt(c.storageLimit) == Some(e.storageLimit)
            && ParseInt(c.fee) == Some(e.suggestedFee)
  {
    hide ParseInt, PrintInt, Canonical, TransactionOperation, EstimatesOf, BuildReveal;
    EstimateAgreesWithForge(req, a);
    BatchShape(req, a);
    RevealReadsBack(a, req.source, req.publicKey.value, None);
    EstimateMeans(req, a, 0);
  }
}
