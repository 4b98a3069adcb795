/** The operations table (src/models/operations.ts): operations become rows when they are forged and
    operations again when they are injected (src/lib/jobs/inject-operation.ts). */
module Operations {
  import opened Wrappers
  import opened Decimal
  import opened Jobs
  import Tokens

  // JSON.stringify and JSON.parse as an inverse pair.
  datatype Text = JsonText(value: Tokens.Json)

  // The contents of an operation as the node takes them: numbers are decimal strings.
  datatype Content =
    | Reveal(source: string, fee: string, counter: string, gasLimit: string, storageLimit: string,
             publicKey: Option<string>)
    | Transaction(source: string, fee: string, counter: string, gasLimit: string, storageLimit: string,
                  destination: string, amount: string, parameters: Option<Tokens.Json>)

  // An operation to insert; a transaction carries its parameters in readable form as well.
  datatype Operation = Operation(content: Content, parametersJson: Option<Tokens.Json>)

  datatype OpKind = RevealKind | TransactionKind

  // Columns that may be NULL are options. The dates are not part of the model.
  datatype Row = Row(
    job: nat, kind: OpKind, source: string, destination: string,
    parameters: Option<Text>, parametersJson: Option<Text>,
    amount: Option<int>, fee: Option<int>, storageLimit: Option<int>, gasLimit: Option<int>, counter: Option<int>,
    branch: Option<string>, callerId: string, publicKey: Option<string>)

  const MAX_INT := 0x7FFF_FFFF
  const MAX_CALLER_ID := 100

  datatype Error = DatabaseError | NullColumn

  /** An INT column takes the number: it is not NaN and has 32 bits. */
  predicate Fits(n: Option<int>) {
    n.Some? && -MAX_INT - 1 <= n.value <= MAX_INT
  }

  function Stringify(v: Option<Tokens.Json>): Option<Text> {
    if v.Some? then Some(JsonText(v.value)) else None
  }

  /** mapOperationValues */
  function RowOf(op: Operation, branch: string, job: nat, callerId: string): Row {
    var c := op.content;
    var fee, storage := ParseInt(c.fee), ParseInt(c.storageLimit);
    var gas, counter := ParseInt(c.gasLimit), ParseInt(c.counter);
    match c
    case Reveal(source, _, _, _, _, publicKey) =>
      Row(job, RevealKind, source, "", None, None, None, fee, storage, gas, counter, Some(branch), callerId, publicKey)
    case Transaction(source, _, _, _, _, destination, amount, parameters) =>
      Row(job, TransactionKind, source, destination, Stringify(parameters), Stringify(op.parametersJson),
          ParseInt(amount), fee, storage, gas, counter, Some(branch), callerId, None)
  }

  /** The database takes the values of the operation. */
  predicate Insertable(op: Operation, callerId: string) {
    && Fits(ParseInt(op.content.fee)) && Fits(ParseInt(op.content.storageLimit))
    && Fits(ParseInt(op.content.gasLimit)) && Fits(ParseInt(op.content.counter))
    && (op.content.Transaction? ==> Fits(ParseInt(op.content.amount)))
    && |callerId| <= MAX_CALLER_ID
  }

  predicate AllInsertable(ops: seq<Operation>, callerId: string) {
    forall i :: 0 <= i < |ops| ==> Insertable(ops[i], callerId)
  }

  function RowsFor(ops: seq<Operation>, branch: string, job: nat, callerId: string): (rows: seq<Row>) {
    seq(|ops|, i requires 0 <= i < |ops| => RowOf(ops[i], branch, job, callerId))
  }

  lemma RowsBelongToJob(ops: seq<Operation>, branch: string, job: nat, callerId: string)
    ensures forall i :: 0 <= i < |ops| ==> RowsFor(ops, branch, job, callerId)[i].job == job
  {
  }

  /** selectOperation by job, in insertion order */
  function RowsOf(rows: seq<Row>, job: nat): seq<Row> {
    if rows == [] then []
    else RowsOf(rows[..|rows| - 1], job) + if rows[|rows| - 1].job == job then [rows[|rows| - 1]] else []
  }

  /** selectOperation finds the job's rows, all of them and no other. */
  lemma {:induction false} RowsOfJob(rows: seq<Row>, job: nat, row: Row)
    ensures multiset(RowsOf(rows, job))[row] == if row.job == job then multiset(rows)[row] else 0
  {
    if rows != [] {
      var before, last := rows[..|rows| - 1], rows[|rows| - 1];
      RowsOfJob(before, job, row);
      assert multiset(rows) == multiset(before) + multiset{last} by { assert rows == before + [last]; }
      assert multiset(RowsOf(rows, job)) ==
             multiset(RowsOf(before, job)) + if last.job == job then multiset{last} else multiset{};
    }
  }

  class OperationsTable {
    const jobs: JobsTable
    var rows: seq<Row>

    constructor (jobs: JobsTable)
      ensures this.jobs == jobs && rows == []
    {
      this.jobs, rows := jobs, [];
    }

    /** The foreign key: every row belongs to a job. */
    ghost predicate Linked()
      reads this, jobs
    {
      forall i :: 0 <= i < |rows| ==> rows[i].job in jobs.rows
    }

    /** One INSERT for all rows: it takes all of them or none. */
    method InsertOperations(ops: seq<Operation>, branch: string, job: nat, callerId: string)
      returns (r: Result<(), Error>)
      requires Linked()
      modifies `rows
      ensures Linked()
      ensures r.Ok? <==> ops != [] && job in jobs.rows && AllInsertable(ops, callerId)
      ensures rows == old(rows) + if r.Ok? then RowsFor(ops, branch, job, callerId) else []
    {
      hide RowOf, Insertable;
      var values: seq<Row> := [];
      for i := 0 to |ops|
        invariant values == RowsFor(ops[..i], branch, job, callerId)
        invariant AllInsertable(ops[..i], callerId)
      {
        if !Insertable(ops[i], callerId) { return Err(DatabaseError); }
        assert ops[..i + 1] == ops[..i] + [ops[i]];
        values := values + [RowOf(ops[i], branch, job, callerId)];
      }
      assert ops[..|ops|] == ops;
      if ops == [] || job !in jobs.rows { return Err(DatabaseError); }
      assert forall i :: 0 <= i < |values| ==> values[i].job == job by { RowsBelongToJob(ops, branch, job, callerId); }
      rows := rows + values;
      return Ok(());
    }

    /** The row of a transaction that has been sent: no node parameters, fee or limits. */
    method InsertTransaction(destination: string, source: string, parametersJson: Option<Tokens.Json>, amount: int,
                             job: nat, callerId: string)
      returns (r: Result<(), Error>)
      requires Linked()
      modifies `rows
      ensures Linked()
      ensures r.Ok? <==> job in jobs.rows && Fits(Some(amount)) && |callerId| <= MAX_CALLER_ID
      ensures rows == old(rows) + if r.Err? then [] else
                [Row(job, TransactionKind, source, destination, None, Stringify(parametersJson), Some(amount),
                     None, None, None, None, None, callerId, None)]
    {
      if job !in jobs.rows || !Fits(Some(amount)) || |callerId| > MAX_CALLER_ID { return Err(DatabaseError); }
      rows := rows + [Row(job, TransactionKind, source, destination, None, Stringify(parametersJson), Some(amount),
                          None, None, None, None, None, callerId, None)];
      return Ok(());
    }
  }

  // ----- back to operations ---------------------------------------------------------------------------------

  /** mapOperations on one row: a NULL number has no `toString`; a NULL text parses as null. */
  function ContentOf(row: Row): Result<Content, Error> {
    if row.fee.None? || row.counter.None? || row.gasLimit.None? || row.storageLimit.None? then Err(NullColumn)
    else
      var fee, counter := PrintInt(row.fee.value), PrintInt(row.counter.value);
      var gas, storage := PrintInt(row.gasLimit.value), PrintInt(row.storageLimit.value);
      if row.kind == RevealKind then Ok(Reveal(row.source, fee, counter, gas, storage, row.publicKey))
      else if row.amount.None? then Err(NullColumn)
      else
        Ok(Transaction(row.source, fee, counter, gas, storage, row.destination, PrintInt(row.amount.value),
                       Some(if row.parameters.Some? then row.parameters.value.value else Tokens.JNull)))
  }

  /** An operation comes back from any row without NULL numbers, with the row's numbers, names and key, and
      with null for parameters that are NULL. */
  lemma ContentReadsBack(row: Row)
    ensures ContentOf(row).Ok? <==>
            && row.fee.Some? && row.counter.Some? && row.gasLimit.Some? && row.storageLimit.Some?
            && (row.kind == TransactionKind ==> row.amount.Some?)
    ensures ContentOf(row).Ok? ==>
              var c := ContentOf(row).value;
              && (c.Reveal? <==> row.kind == RevealKind) && c.source == row.source
              && ParseInt(c.fee) == row.fee && ParseInt(c.counter) == row.counter
              && ParseInt(c.gasLimit) == row.gasLimit && ParseInt(c.storageLimit) == row.storageLimit
              && (c.Reveal? ==> c.publicKey == row.publicKey)
              && (c.Transaction? ==>
                    && c.destination == row.destination && ParseInt(c.amount) == row.amount
                    && c.parameters == match row.parameters case Some(JsonText(v)) => Some(v)
                                                            case None => Some(Tokens.JNull))
  {
    hide ParseInt, PrintInt;
    if row.fee.Some? { ParseOfPrint(row.fee.value); }
    if row.counter.Some? { ParseOfPrint(row.counter.value); }
    if row.gasLimit.Some? { ParseOfPrint(row.gasLimit.value); }
    if row.storageLimit.Some? { ParseOfPrint(row.storageLimit.value); }
    if row.amount.Some? { ParseOfPrint(row.amount.value); }
  }

  /** The contents come back row by row, and none of them if one cannot. */
  lemma {:induction false} ContentsInOrder(rows: seq<Row>)
    ensures ContentsOf(rows).Ok? <==> forall i :: 0 <= i < |rows| ==> ContentOf(rows[i]).Ok?
    ensures ContentsOf(rows).Ok? ==>
              && |ContentsOf(rows).value| == |rows|
              && forall i :: 0 <= i < |rows| ==> ContentOf(rows[i]) == Ok(ContentsOf(rows).value[i])
  {
    hide ContentOf;
    if rows != [] {
      ContentsInOrder(rows[1..]);
      assert forall i :: 0 < i < |rows| ==> rows[i] == rows[1..][i - 1];
      assert forall i :: 0 <= i < |rows[1..]| ==> rows[1..][i] == rows[i + 1];
    }
  }

  function ContentsOf(rows: seq<Row>): Result<seq<Content>, Error> {
    if rows == [] then Ok([])
    else
      var head := ContentOf(rows[0]);
      if head.Err? then Err(head.error)
      else
        var rest := ContentsOf(rows[1..]);
        if rest.Err? then rest else Ok([head.value] + rest.value)
  }

  /** Every number of the operation is a canonical decimal. */
  predicate CanonicalContent(c: Content) {
    Canonical(c.fee) && Canonical(c.counter) && Canonical(c.gasLimit) && Canonical(c.storageLimit)
    && (c.Transaction? ==> Canonical(c.amount))
  }

  predicate HasParameters(c: Content) {
    c.Transaction? ==> c.parameters.Some?
  }

  /** An operation comes back from its row as it was exactly when its numbers are canonical decimals
      and, if it is a transaction, its parameters are given. */
  lemma RowRoundTrip(op: Operation, branch: string, job: nat, callerId: string)
    requires Insertable(op, callerId)
    ensures ContentOf(RowOf(op, branch, job, callerId)) == Ok(op.content) <==>
            CanonicalContent(op.content) && HasParameters(op.content)
  {
    hide Canonical, ParseInt, PrintInt;
    PrintOfParse(op.content.fee);
    PrintOfParse(op.content.counter);
    PrintOfParse(op.content.gasLimit);
    PrintOfParse(op.content.storageLimit);
    if op.content.Transaction? { PrintOfParse(op.content.amount); }
  }

  function Contents(ops: seq<Operation>): seq<Content> {
    seq(|ops|, i requires 0 <= i < |ops| => ops[i].content)
  }

  predicate Faithful(c: Content) {
    CanonicalContent(c) && HasParameters(c)
  }

  lemma ConsEqual<T>(h: T, t: seq<T>, h': T, t': seq<T>)
    ensures [h] + t == [h'] + t' <==> h == h' && t == t'
  {
    if [h] + t == [h'] + t' {
      assert ([h] + t)[0] == ([h'] + t')[0] && ([h] + t)[1..] == ([h'] + t')[1..];
      assert ([h] + t)[1..] == t && ([h'] + t')[1..] == t';
    }
  }

  lemma {:induction false} RowsRoundTrip(ops: seq<Operation>, branch: string, job: nat, callerId: string)
    requires AllInsertable(ops, callerId)
    ensures ContentsOf(RowsFor(ops, branch, job, callerId)) == Ok(Contents(ops)) <==>
            forall i :: 0 <= i < |ops| ==> Faithful(ops[i].content)
  {
    hide ContentOf, RowOf, CanonicalContent, HasParameters, Insertable;
    if ops == [] {
      assert RowsFor(ops, branch, job, callerId) == [] && Contents(ops) == [];
    } else {
      var rows, more := RowsFor(ops, branch, job, callerId), RowsFor(ops[1..], branch, job, callerId);
      RowRoundTrip(ops[0], branch, job, callerId);
      RowsRoundTrip(ops[1..], branch, job, callerId);
      assert rows[0] == RowOf(ops[0], branch, job, callerId) && rows[1..] == more;
      assert Contents(ops) == [ops[0].content] + Contents(ops[1..]);
      if ContentOf(rows[0]).Ok? && ContentsOf(more).Ok? {
        ConsEqual(ContentOf(rows[0]).value, ContentsOf(more).value, ops[0].content, Contents(ops[1..]));
      }
      var rest := ops[1..];
      assert forall i :: 0 <= i < |rest| ==> rest[i] == ops[i + 1];
    }
  }

  lemma {:induction false} RowsOfAppend(a: seq<Row>, b: seq<Row>, job: nat)
    ensures RowsOf(a + b, job) == RowsOf(a, job) + RowsOf(b, job)
  {
    if b == [] {
      assert a + b == a;
    } else {
      assert (a + b)[..|a + b| - 1] == a + b[..|b| - 1];
      RowsOfAppend(a, b[..|b| - 1], job);
    }
  }

  lemma {:induction false} RowsOfOneJob(rows: seq<Row>, job: nat)
    requires forall i :: 0 <= i < |rows| ==> rows[i].job == job
    ensures RowsOf(rows, job) == rows
  {
    if rows != [] {
      RowsOfOneJob(rows[..|rows| - 1], job);
      assert rows == rows[..|rows| - 1] + [rows[|rows| - 1]];
    }
  }

  lemma {:induction false} RowsOfOtherJobs(rows: seq<Row>, job: nat)
    requires forall i :: 0 <= i < |rows| ==> rows[i].job != job
    ensures RowsOf(rows, job) == []
  {
    if rows != [] {
      RowsOfOtherJobs(rows[..|rows| - 1], job);
    }
  }

  /** What was inserted for a new job is what is read for it, whatever is inserted for other jobs
      before and after; and it reads back as it was exactly when every operation is faithful. */
  lemma StoredOperationsComeBack(
    before: seq<Row>, ops: seq<Operation>, after: seq<Row>, branch: string, job: nat, callerId: string)
    requires AllInsertable(ops, callerId)
    requires forall i :: 0 <= i < |before| ==> before[i].job != job
    requires forall i :: 0 <= i < |after| ==> after[i].job != job
    ensures var rows := RowsOf(before + RowsFor(ops, branch, job, callerId) + after, job);
            rows == RowsFor(ops, branch, job, callerId)
            && (ContentsOf(rows) == Ok(Contents(ops)) <==> forall i :: 0 <= i < |ops| ==> Faithful(ops[i].content))
  {
    var mine := RowsFor(ops, branch, job, callerId);
    RowsOfAppend(before + mine, after, job);
    RowsOfAppend(before, mine, job);
    RowsOfOtherJobs(before, job);
    RowsOfOneJob(mine, job);
    RowsOfOtherJobs(after, job);
    RowsRoundTrip(ops, branch, job, callerId);
  }
}
