/** Injecting a signed operation (src/lib/jobs/inject-operation.ts): the stored rows are pre-applied,
    the signed operation is injected, and the job is written. */
module Inject {
  import opened Wrappers
  import opened Jobs
  import opened Operations
  import Batches
  import Forge

  // What the node and the database do: an error carries its message. `textOfTypeError` is what the
  // language says about a NULL number.
  datatype Answers = Answers(
    preapplied: Result<(), string>, injected: Result<string, string>, hashError: Option<string>, errorWriteFails: bool,
    textOfTypeError: string)

  datatype Outcome = Injected | JobIdNotFound | Thrown(message: string)

  /** The first step that fails decides; a job without rows is refused before any write. */
  function OutcomeOf(t: Table, rows: seq<Row>, job: nat, a: Answers): Outcome {
    if RowsOf(rows, job) == [] then JobIdNotFound
    else if ContentsOf(RowsOf(rows, job)).Err? then Thrown(a.textOfTypeError)
    else if a.preapplied.Err? then Thrown(a.preapplied.error)
    else if a.injected.Err? then Thrown(a.injected.error)
    else if a.hashError.Some? then Thrown(a.hashError.value)
    else if job !in t then JobIdNotFound
    else Injected
  }

  /** What the node is asked to pre-apply, if the rows give anything. */
  function SentToNode(rows: seq<Row>, job: nat): Option<seq<Content>> {
    var mine := RowsOf(rows, job);
    if mine != [] && ContentsOf(mine).Ok? then Some(ContentsOf(mine).value) else None
  }

  method InjectOperation(jobs: JobsTable, table: OperationsTable, job: nat, a: Answers)
    returns (outcome: Outcome, sentToNode: Option<seq<Content>>)
    requires jobs.Valid()
    modifies jobs`rows
    ensures jobs.Valid()
    ensures outcome == OutcomeOf(old(jobs.rows), table.rows, job, a)
    ensures outcome == Injected <==>
            && RowsOf(table.rows, job) != [] && ContentsOf(RowsOf(table.rows, job)).Ok?
            && a.preapplied.Ok? && a.injected.Ok? && a.hashError.None? && job in old(jobs.rows)
    ensures outcome.Thrown? ==>
              outcome.message ==
              if ContentsOf(RowsOf(table.rows, job)).Err? then a.textOfTypeError
              else if a.preapplied.Err? then a.preapplied.error
              else if a.injected.Err? then a.injected.error
              else a.hashError.value
    ensures outcome == JobIdNotFound <==>
            || RowsOf(table.rows, job) == []
            || (ContentsOf(RowsOf(table.rows, job)).Ok? && a.preapplied.Ok? && a.injected.Ok? && a.hashError.None?
                && job !in old(jobs.rows))
    ensures sentToNode == SentToNode(table.rows, job)
    ensures RowsOf(table.rows, job) != [] && ContentsOf(RowsOf(table.rows, job)).Ok? ==>
              sentToNode == Some(ContentsOf(RowsOf(table.rows, job)).value)
    ensures jobs.rows == match outcome
              case Injected => WithHash(old(jobs.rows), a.injected.value, job)
              case JobIdNotFound => old(jobs.rows)
              case Thrown(message) =>
                if a.errorWriteFails then old(jobs.rows) else WithError(old(jobs.rows), message, job)
    ensures outcome == Injected ==>
              jobs.rows == old(jobs.rows)[job := Job(Published, Some(a.injected.value), old(jobs.rows)[job].message)]
    ensures outcome.Thrown? && !a.errorWriteFails && job in old(jobs.rows) ==>
              jobs.rows == old(jobs.rows)[job := Job(Error, old(jobs.rows)[job].hash, Some(outcome.message))]
  {
    sentToNode := None;
    var operationsList := RowsOf(table.rows, job);
    if operationsList == [] { return JobIdNotFound, None; }
    var message;
    var params := ContentsOf(operationsList);
    if params.Err? {
      message := a.textOfTypeError;
    } else {
      sentToNode := Some(params.value);
      if a.preapplied.Err? {
        message := a.preapplied.error;
      } else if a.injected.Err? {
        message := a.injected.error;
      } else if a.hashError.Some? {
        message := a.hashError.value;
      } else {
        var updated := jobs.UpdateOperationHash(a.injected.value, job);
        return if updated then Injected else JobIdNotFound, sentToNode;
      }
    }
    if !a.errorWriteFails {
      var _ := jobs.UpdateJobStatusAndErrorMessage(message, job);
    }
    return Thrown(message), sentToNode;
  }

  /** From forge to injection: whatever was stored for other jobs before and after, the node is asked
      to pre-apply exactly the forged contents, in their order, and then the job is published under the
      injected hash exactly when no step fails. */
  lemma ForgedJobIsInjectedAsForged(req: Forge.Request, f: Forge.Answers, before: seq<Row>, after: seq<Row>, job: nat,
                                    t: Table, a: Answers)
    requires Forge.ParametersGiven(req, f) && Forge.Batch(req, f).Ok? && f.branch.Ok? && f.parameters.Ok?
    requires Forge.Batch(req, f).value != [] && AllInsertable(Forge.Batch(req, f).value, Forge.CallerId(req))
    requires forall i :: 0 <= i < |f.parameters.value| ==> f.parameters.value[i].Some?
    requires forall i :: 0 <= i < |before| ==> before[i].job != job
    requires forall i :: 0 <= i < |after| ==> after[i].job != job
    requires job in t
    ensures var ops := Forge.Batch(req, f).value;
            var stored := before + RowsFor(ops, f.branch.value, job, Forge.CallerId(req)) + after;
            && SentToNode(stored, job) == Some(Contents(ops))
            && (OutcomeOf(t, stored, job, a) == Injected <==> a.preapplied.Ok? && a.injected.Ok? && a.hashError.None?)
  {
    hide Forge.Batch, RowOf, ContentsOf, RowsOf, Insertable;
    var ops := Forge.Batch(req, f).value;
    Batches.ForgedIsWhatIsInjected(req, f, before, after, job);
    StoredOperationsComeBack(before, ops, after, f.branch.value, job, Forge.CallerId(req));
    assert |RowsFor(ops, f.branch.value, job, Forge.CallerId(req))| == |ops| > 0;
  }
}
