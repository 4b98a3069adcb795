/** Forging a batch of operations (src/lib/jobs/forge-operation.ts, forge-reveal-operation.ts): the
    node's answers become operation contents, a job, and rows of the operations table. */
module Forge {
  import opened Wrappers
  import opened Decimal
  import opened Jobs
  import opened Operations
  import opened Tokens

  const MAX_OPERATIONS_PER_BATCH := 5
  const GAS_LIMIT_MARGIN := 100

  datatype TransactionDetails = TransactionDetails(
    contractAddress: string, entryPoint: string, entryPointParams: Option<Json>, amount: Option<int>, fee: Option<int>)

  datatype Request = Request(
    transactions: seq<TransactionDetails>, source: string, callerId: Option<string>, publicKey: Option<string>,
    isReveal: bool)

  datatype Estimate = Estimate(
    suggestedFee: nat, minimalFee: nat, consumedMilligas: nat, gasLimit: nat, storageLimit: nat, burnFee: nat)

  // What the node, the contract cache and the formatter answer while one request is served. The
  // reveal estimate is undefined (None) for an account already revealed; a failed batch estimation
  // tells whether the node itself refused it.
  datatype Answers = Answers(
    revealEstimate: Result<Option<Estimate>, ()>,
    revealCounter: Option<string>,
    counter: Option<string>,
    parameters: Result<seq<Option<Json>>, ForgeError>,
    estimations: Result<seq<Estimate>, bool>,
    branch: Result<string, ()>)

  datatype ForgeError =
    | MaxOperationsPerBatch
    | PublicKeyUndefined
    | RevealEstimateFailed
    | AddressAlreadyRevealed
    | AddressNotFound
    | AddressNotRevealed
    | BadParameters
    | TezosOperationFailed
    | TypeError
    | ForgingFailed
    | InsertFailed

  // ----- numbers ------------------------------------------------------------------------------------------

  // A JavaScript number that is an integer or NaN.
  type Number = Option<int>

  function Plus(a: Number, b: Number): Number {
    if a.Some? && b.Some? then Some(a.value + b.value) else None
  }

  function ToString(n: Number): string {
    if n.Some? then PrintInt(n.value) else "NaN"
  }

  /** Number(s); the strings that come here are integers or "NaN". */
  function ToNumber(s: string): Number {
    if Canonical(s) then ParseInt(s) else None
  }

  /** A missing, null or zero amount counts as not given. */
  predicate Given(n: Option<int>) {
    n.Some? && n.value != 0
  }

  // ----- the contents -----------------------------------------------------------------------------------

  predicate Truthy(p: Json) {
    p != JNull && p != JBool(false) && p != JNum(0.0) && p != JStr("")
  }

  function CreateParametersJson(tx: TransactionDetails): Json {
    var given := tx.entryPointParams;
    JObj([Field("entrypoint", JStr(tx.entryPoint)),
          Field("value", JObj([Field(tx.entryPoint,
                                    if given.Some? && Truthy(given.value) then given.value else JNum(0.0))]))])
  }

  /** The counter the node reports; missing or empty means an unknown account. */
  function AccountCounter(c: Option<string>): Option<Number> {
    if c.None? || c.value == "" then None else Some(ParseInt(c.value))
  }

  /** estimateAndBuildRevealOperation */
  function BuildReveal(a: Answers, address: string, publicKey: string, fee: Option<int>): Result<Content, ForgeError> {
    if a.revealEstimate.Err? then Err(RevealEstimateFailed)
    else if a.revealEstimate.value.None? then Err(AddressAlreadyRevealed)
    else if AccountCounter(a.revealCounter).None? then Err(AddressNotFound)
    else
      var e := a.revealEstimate.value.value;
      Ok(Reveal(address, PrintInt(if Given(fee) then fee.value else e.suggestedFee),
                ToString(Plus(AccountCounter(a.revealCounter).value, Some(1))),
                PrintInt(e.gasLimit), PrintInt(e.storageLimit), Some(publicKey)))
  }

  /** A reveal carries the account and its key, and its numbers read back as the node's estimate, the fee
      given instead, and the number after the account's counter. */
  lemma RevealReadsBack(a: Answers, address: string, publicKey: string, fee: Option<int>)
    ensures BuildReveal(a, address, publicKey, fee).Ok? <==>
            a.revealEstimate.Ok? && a.revealEstimate.value.Some? && a.revealCounter.Some? && a.revealCounter != Some("")
    ensures BuildReveal(a, address, publicKey, fee).Ok? ==>
              var c, e := BuildReveal(a, address, publicKey, fee).value, a.revealEstimate.value.value;
              var account := ParseInt(a.revealCounter.value);
              && c.Reveal? && c.source == address && c.publicKey == Some(publicKey)
              && ParseInt(c.gasLimit) == Some(e.gasLimit) && ParseInt(c.storageLimit) == Some(e.storageLimit)
              && ParseInt(c.fee) == Some(match fee case Some(f) => if f != 0 then f else e.suggestedFee
                                                   case None => e.suggestedFee)
              && ParseInt(c.counter) == (if account.Some? then Some(account.value + 1) else None)
              && Canonical(c.fee) && Canonical(c.gasLimit)
  {
    hide ParseInt, PrintInt, Canonical;
    if BuildReveal(a, address, publicKey, fee).Ok? {
      var e, account := a.revealEstimate.value.value, ParseInt(a.revealCounter.value);
      ParseOfPrint(e.gasLimit);
      ParseOfPrint(e.storageLimit);
      ParseOfPrint(if Given(fee) then fee.value else e.suggestedFee);
      if account.Some? { ParseOfPrint(account.value + 1); } else { NaNReadsBack(); }
    }
  }

  lemma NaNReadsBack()
    ensures ParseInt("NaN").None?
  {
  }

  /** The reveal in front of the batch, if one is asked for and needed. */
  function RevealIfNeeded(req: Request, a: Answers): Result<seq<Operation>, ForgeError> {
    if req.isReveal && req.publicKey.Some? then
      match BuildReveal(a, req.source, req.publicKey.value, None)
      case Ok(c) => Ok([Operation(c, None)])
      case Err(AddressAlreadyRevealed) => Ok([])
      case Err(e) => Err(e)
    else Ok([])
  }

  function TransactionOperation(
    tx: TransactionDetails, source: string, parameters: Option<Json>, e: Estimate, counter: Number)
    : Operation
  {
    Operation(
      Transaction(source, PrintInt(if Given(tx.fee) then tx.fee.value else e.suggestedFee), ToString(counter),
                  PrintInt(e.gasLimit), PrintInt(e.storageLimit), tx.contractAddress,
                  if Given(tx.amount) then PrintInt(tx.amount.value) else "0", parameters),
      Some(CreateParametersJson(tx)))
  }

  /** Every transaction has been turned into parameters. */
  predicate ParametersGiven(req: Request, a: Answers) {
    a.parameters.Ok? ==> |a.parameters.value| == |req.transactions|
  }

  /** The estimations start with one for a reveal, which the batch does not need. */
  predicate EstimatesReveal(req: Request, estimations: seq<Estimate>) {
    req.isReveal && |estimations| > |req.transactions|
  }

  function OwnEstimations(req: Request, estimations: seq<Estimate>): seq<Estimate> {
    if EstimatesReveal(req, estimations) then estimations[1..] else estimations
  }

  /** The number the i-th transaction is counted with. */
  function CounterAt(req: Request, estimations: seq<Estimate>, account: Number, i: nat): Number {
    Plus(account, Some((if EstimatesReveal(req, estimations) then 1 else 0) + 1 + i))
  }

  function TransactionsUpTo(
    req: Request, parameters: seq<Option<Json>>, estimations: seq<Estimate>, account: Number, n: nat)
    : seq<Operation>
    requires |parameters| == |req.transactions| && n <= |OwnEstimations(req, estimations)| && n <= |req.transactions|
  {
    seq(n, i requires 0 <= i < n =>
      TransactionOperation(req.transactions[i], req.source, parameters[i], OwnEstimations(req, estimations)[i],
                           CounterAt(req, estimations, account, i)))
  }

  function Transactions(req: Request, a: Answers): Result<seq<Operation>, ForgeError>
    requires ParametersGiven(req, a)
  {
    if AccountCounter(a.counter).None? then Err(AddressNotFound)
    else if a.parameters.Err? then Err(a.parameters.error)
    else if a.estimations.Err? then Err(if a.estimations.error then TezosOperationFailed else AddressNotRevealed)
    else
      var own := OwnEstimations(req, a.estimations.value);
      if |own| > |req.transactions| then Err(TypeError)
      else Ok(TransactionsUpTo(req, a.parameters.value, a.estimations.value, AccountCounter(a.counter).value, |own|))
  }

  method GetOperationContents(req: Request, a: Answers) returns (r: Result<seq<Operation>, ForgeError>)
    requires ParametersGiven(req, a)
    ensures r == Transactions(req, a)
  {
    hide TransactionOperation, ParseInt;
    if a.counter.None? || a.counter.value == "" { return Err(AddressNotFound); }
    var counter := ParseInt(a.counter.value);
    ghost var account := counter;
    if a.parameters.Err? { return Err(a.parameters.error); }
    if a.estimations.Err? { return Err(if a.estimations.error then TezosOperationFailed else AddressNotRevealed); }
    var parameters, estimations := a.parameters.value, a.estimations.value;
    if req.isReveal && |estimations| > |req.transactions| {
      counter := Plus(counter, Some(1));
      estimations := estimations[1..];
    }
    var ops: seq<Operation> := [];
    for i := 0 to |estimations|
      invariant i <= |req.transactions|
      invariant counter == Plus(account, Some((if EstimatesReveal(req, a.estimations.value) then 1 else 0) + i))
      invariant ops == TransactionsUpTo(req, parameters, a.estimations.value, account, i)
    {
      if i >= |req.transactions| { return Err(TypeError); }
      counter := Plus(counter, Some(1));
      ops := ops + [TransactionOperation(req.transactions[i], req.source, parameters[i], estimations[i], counter)];
    }
    return Ok(ops);
  }

  /** What is forged and stored: the reveal, if any, and the transactions. A full batch has no room
      for a reveal. */
  function Batch(req: Request, a: Answers): Result<seq<Operation>, ForgeError>
    requires ParametersGiven(req, a)
  {
    var front := RevealIfNeeded(req, a);
    if front.Err? then front
    else if |req.transactions| == MAX_OPERATIONS_PER_BATCH && front.value != [] then Err(MaxOperationsPerBatch)
    else
      var ts := Transactions(req, a);
      if ts.Err? then ts else Ok(front.value + ts.value)
  }

  /** The controllers' check before anything else. */
  function Admit(req: Request): Result<(), ForgeError> {
    if |req.transactions| > MAX_OPERATIONS_PER_BATCH then Err(MaxOperationsPerBatch)
    else if req.isReveal && req.publicKey.None? then Err(PublicKeyUndefined)
    else Ok(())
  }

  function FeeOf(ops: seq<Operation>): Number {
    if ops == [] then Some(0) else Plus(FeeOf(ops[..|ops| - 1]), ToNumber(ops[|ops| - 1].content.fee))
  }

  function GasOf(ops: seq<Operation>): Number {
    if ops == [] then Some(0)
    else Plus(Plus(GasOf(ops[..|ops| - 1]), ToNumber(ops[|ops| - 1].content.gasLimit)), Some(-GAS_LIMIT_MARGIN))
  }

  datatype Forged = Forged(job: nat, fee: Number, gas: Number)

  function CallerId(req: Request): string {
    if req.callerId.Some? then req.callerId.value else ""
  }

  /** Forging writes nothing until the node has forged the batch; then it creates the job, and the
      rows in one INSERT, whose failure leaves the job without rows. */
  method ForgeOperation(jobs: JobsTable, table: OperationsTable, req: Request, a: Answers)
    returns (r: Result<Forged, ForgeError>, ghost id: nat)
    requires jobs.Valid() && table.jobs == jobs && table.Linked() && ParametersGiven(req, a)
    modifies jobs, table`rows
    ensures jobs.Valid() && table.Linked()
    ensures var b := Batch(req, a);
            if b.Err? || a.branch.Err? then
              jobs.rows == old(jobs.rows) && table.rows == old(table.rows)
              && r == Err(if b.Err? then b.error else ForgingFailed)
            else
              && id !in old(jobs.rows) && jobs.rows == old(jobs.rows)[id := NEW_JOB]
              && (r == if b.value != [] && AllInsertable(b.value, CallerId(req))
                       then Ok(Forged(id, FeeOf(b.value), GasOf(b.value))) else Err(InsertFailed))
              && (table.rows == old(table.rows)
                                + if r.Ok? then RowsFor(b.value, a.branch.value, id, CallerId(req)) else [])
              && (forall i :: 0 <= i < |old(table.rows)| ==> old(table.rows)[i].job != id)
  {
    id := 0;
    var front := RevealIfNeeded(req, a);
    if front.Err? { return Err(front.error), id; }
    if |req.transactions| == MAX_OPERATIONS_PER_BATCH && |front.value| > 0 { return Err(MaxOperationsPerBatch), id; }
    var transactions := GetOperationContents(req, a);
    if transactions.Err? { return Err(transactions.error), id; }
    var ops := front.value + transactions.value;
    if a.branch.Err? { return Err(ForgingFailed), id; }
    var job := jobs.InsertJob();
    id := job;
    var inserted := table.InsertOperations(ops, a.branch.value, job, CallerId(req));
    if inserted.Err? { return Err(InsertFailed), id; }
    return Ok(Forged(job, FeeOf(ops), GasOf(ops))), id;
  }

  /** Revealing an account on its own. */
  method ForgeRevealOperation(jobs: JobsTable, table: OperationsTable, a: Answers, address: string, publicKey: string,
                              callerId: Option<string>, fee: Option<int>)
    returns (r: Result<Forged, ForgeError>, ghost id: nat)
    requires jobs.Valid() && table.jobs == jobs && table.Linked()
    modifies jobs, table`rows
    ensures jobs.Valid() && table.Linked()
    ensures var b, caller := BuildReveal(a, address, publicKey, fee), if callerId.Some? then callerId.value else "";
            if b.Err? || a.branch.Err? then
              jobs.rows == old(jobs.rows) && table.rows == old(table.rows)
              && r == Err(if b.Err? then b.error else ForgingFailed)
            else
              var op := Operation(b.value, None);
              && id !in old(jobs.rows) && jobs.rows == old(jobs.rows)[id := NEW_JOB]
              && (r == if Insertable(op, caller)
                       then Ok(Forged(id, ToNumber(b.value.fee),
                                      Plus(ToNumber(b.value.gasLimit), Some(-GAS_LIMIT_MARGIN))))
                       else Err(InsertFailed))
              && (table.rows == old(table.rows) + if r.Ok? then [RowOf(op, a.branch.value, id, caller)] else [])
    ensures r == Err(RevealEstimateFailed) <==> a.revealEstimate.Err?
    ensures r == Err(AddressAlreadyRevealed) <==> a.revealEstimate == Ok(None)
    ensures r == Err(AddressNotFound) <==>
            a.revealEstimate.Ok? && a.revealEstimate.value.Some? && a.revealCounter in {None, Some("")}
    ensures r == Err(ForgingFailed) <==>
            && a.revealEstimate.Ok? && a.revealEstimate.value.Some? && a.revealCounter !in {None, Some("")}
            && a.branch.Err?
    ensures r.Ok? <==>
            && a.revealEstimate.Ok? && a.revealEstimate.value.Some? && a.branch.Ok?
            && a.revealCounter !in {None, Some("")} && ParseInt(a.revealCounter.value).Some?
            && var e := a.revealEstimate.value.value;
               && -0x8000_0000 <= (if fee.Some? && fee.value != 0 then fee.value else e.suggestedFee) <= 0x7FFF_FFFF
               && e.storageLimit <= 0x7FFF_FFFF && e.gasLimit <= 0x7FFF_FFFF
               && -0x8000_0000 <= ParseInt(a.revealCounter.value).value + 1 <= 0x7FFF_FFFF
               && (callerId.Some? ==> |callerId.value| <= 100)
    ensures r.Ok? ==>
              && a.revealEstimate.Ok? && a.revealEstimate.value.Some? && a.revealCounter.Some? && a.branch.Ok?
              && ParseInt(a.revealCounter.value).Some?
              && var e := a.revealEstimate.value.value;
                 var caller := if callerId.Some? then callerId.value else "";
                 var paid := if fee.Some? && fee.value != 0 then fee.value else e.suggestedFee;
                 && table.rows == old(table.rows) + [
                      Row(id, RevealKind, address, "", None, None, None, Some(paid), Some(e.storageLimit),
                          Some(e.gasLimit), Some(ParseInt(a.revealCounter.value).value + 1), Some(a.branch.value),
                          caller, Some(publicKey))]
                 && r.value == Forged(id, Some(paid), Some(e.gasLimit - 100))
  {
    hide ParseInt, PrintInt, Canonical;
    id := 0;
    var built := BuildReveal(a, address, publicKey, fee);
    RevealReadsBack(a, address, publicKey, fee);
    if built.Err? { return Err(built.error), id; }
    if a.branch.Err? { return Err(ForgingFailed), id; }
    var job := jobs.InsertJob();
    id := job;
    var caller := if callerId.Some? then callerId.value else "";
    var ops := [Operation(built.value, None)];
    var inserted := table.InsertOperations(ops, a.branch.value, job, caller);
    assert ops[0] == Operation(built.value, None);
    if inserted.Err? { return Err(InsertFailed), id; }
    var gas := Plus(ToNumber(built.value.gasLimit), Some(-GAS_LIMIT_MARGIN));
    return Ok(Forged(job, ToNumber(built.value.fee), gas)), id;
  }
}
