/** What lies behind the rows and the published hashes of a run: the calls that forge, inject and send. */
module CallHistory {
  import opened Wrappers
  import opened Jobs
  import opened JobProtocol
  import opened JobHistory

  // A call as it began: its job, and how many rows it has to insert once it is accepted.
  datatype Beginning = Beginning(job: nat, left: nat)

  /** The calls begun in a run, in order. */
  function Begun(run: seq<Action>): seq<Beginning> {
    if run == [] then []
    else
      var a := run[|run| - 1];
      Begun(run[..|run| - 1]) + if a.Begin? then [Beginning(a.job, a.left)] else []
  }

  /** The rows that an action stores, given the calls begun so far. */
  function RowsOfAction(a: Action, begun: seq<Beginning>): seq<Row> {
    match a
    case StoreRows(j, kinds) => seq(|kinds|, i requires 0 <= i < |kinds| => Row(j, kinds[i]))
    case StoreSentRow(c, kind) => if c < |begun| then [Row(begun[c].job, kind)] else []
    case _ => []
  }

  /** The rows stored in a run, in order. */
  function Stored(run: seq<Action>): seq<Row> {
    if run == [] then []
    else Stored(run[..|run| - 1]) + RowsOfAction(run[|run| - 1], Begun(run[..|run| - 1]))
  }

  /** How many rows a call has stored. */
  function SentRows(run: seq<Action>, c: nat): nat {
    if run == [] then 0
    else
      var a := run[|run| - 1];
      SentRows(run[..|run| - 1], c) + if a.StoreSentRow? && a.call == c then 1 else 0
  }

  ghost predicate CallsMatch(w: World, begun: seq<Beginning>) {
    |w.calls| == |begun| && forall c :: 0 <= c < |begun| ==> w.calls[c].job == begun[c].job
  }

  lemma OneStepStores(cfg: Config, w: World, a: Action, begun: seq<Beginning>)
    requires Enabled(w, a) && CallsMatch(w, begun)
    ensures CallsMatch(Next(cfg, w, a), begun + if a.Begin? then [Beginning(a.job, a.left)] else [])
    ensures Next(cfg, w, a).rows == w.rows + RowsOfAction(a, begun)
  {
    if IsCheckAction(a) { CheckActionsLeaveCalls(cfg, w, a); }
  }

  /** The operations table holds exactly the rows that were stored, in that order, each under the job of
      the call that stored it. */
  lemma {:induction false} RowsAreStoredInOrder(cfg: Config, run: seq<Action>)
    requires IsRun(cfg, run)
    ensures CallsMatch(After(cfg, run), Begun(run)) && After(cfg, run).rows == Stored(run)
    decreases |run|
  {
    hide Next, CallsMatch, RowsOfAction;
    if run == [] {
      assert CallsMatch(After(cfg, run), Begun(run)) by { NoCalls(cfg); }
    } else {
      var before := AllButLast(cfg, run);
      RowsAreStoredInOrder(cfg, before);
      OneStepStores(cfg, After(cfg, before), run[|run| - 1], Begun(before));
      assert before == run[..|run| - 1];
    }
  }

  lemma NoCalls(cfg: Config)
    ensures CallsMatch(After(cfg, []), Begun([]))
  {
  }

  /** What each action of a call leaves: a failure leads to the error write, and the two writes change the one
      job row. */
  lemma CallActions(cfg: Config, w: World, a: Action)
    requires Inv(w) && Enabled(w, a)
    requires a.NodeRefuses? || a.StoreSentRowFails? || a.WriteHash? || a.WriteHashFails? || a.WriteError?
             || a.WriteErrorFails?
    ensures a.call < |w.calls| && w.calls[a.call].job in w.jobs
    ensures var w', j := Next(cfg, w, a), w.calls[a.call].job;
            && |w'.calls| == |w.calls| && w'.calls == w.calls[a.call := w'.calls[a.call]]
            && w'.calls[a.call].job == j
            && (w'.calls[a.call].state == Failing <==> a.NodeRefuses? || a.StoreSentRowFails? || a.WriteHashFails?)
            && (w'.calls[a.call].state == Returned <==> a.WriteHash? || a.WriteError? || a.WriteErrorFails?)
            && w'.jobs == match a
                 case WriteHash(_) => w.jobs[j := Job(Published, Some(w.calls[a.call].state.hash), w.jobs[j].message)]
                 case WriteError(_, message) => w.jobs[j := Job(Error, w.jobs[j].hash, Some(message))]
                 case _ => w.jobs
  {
  }

  // ----- publication --------------------------------------------------------------------------------------

  /** A call that waits for the node, or has been accepted and is still storing rows, has stored all that it
      began with but the ones left. */
  lemma {:induction false} RowsLeft(cfg: Config, run: seq<Action>, c: nat)
    requires IsRun(cfg, run) && c < |After(cfg, run).calls|
    requires After(cfg, run).calls[c].state.Working? || After(cfg, run).calls[c].state.Accepted?
    ensures c < |Begun(run)|
    ensures SentRows(run, c) + After(cfg, run).calls[c].left == Begun(run)[c].left
    decreases |run|
  {
    hide CallsMatch;
    var before, a := AllButLast(cfg, run), run[|run| - 1];
    assert before == run[..|run| - 1];
    CallsBegun(cfg, run);
    CallsBegun(cfg, before);
    var w := After(cfg, before);
    OneStepOfCall(cfg, w, a, c);
    if c < |w.calls| {
      RowsLeft(cfg, before, c);
    } else {
      NothingSentYet(cfg, before, c);
    }
  }

  lemma CallsBegun(cfg: Config, run: seq<Action>)
    requires IsRun(cfg, run)
    ensures |After(cfg, run).calls| == |Begun(run)|
  {
    hide Next;
    RowsAreStoredInOrder(cfg, run);
  }

  lemma {:induction false} NothingSentYet(cfg: Config, run: seq<Action>, c: nat)
    requires IsRun(cfg, run) && c >= |After(cfg, run).calls|
    ensures SentRows(run, c) == 0
    decreases |run|
  {
    hide Next;
    if run != [] {
      var before, a := AllButLast(cfg, run), run[|run| - 1];
      assert before == run[..|run| - 1];
      CallsBegun(cfg, run);
      CallsBegun(cfg, before);
      NothingSentYet(cfg, before, c);
    }
  }

  /** What an action makes of a call that is waiting or accepted after it. */
  lemma OneStepOfCall(cfg: Config, w: World, a: Action, c: nat)
    requires Enabled(w, a) && c < |Next(cfg, w, a).calls|
    requires Next(cfg, w, a).calls[c].state.Working? || Next(cfg, w, a).calls[c].state.Accepted?
    ensures var call := Next(cfg, w, a).calls[c];
            if c >= |w.calls| then
              c == |w.calls| && a.Begin? && call == Call(a.job, a.left, Working)
            else
              && (w.calls[c].state == call.state
                  || (w.calls[c].state == Working && call.state.Accepted? && a == NodeAccepts(c, call.state.hash)))
              && w.calls[c].left == call.left + if a.StoreSentRow? && a.call == c then 1 else 0
  {
    if IsCheckAction(a) { CheckActionsLeaveCalls(cfg, w, a); }
  }

  lemma {:induction false} AcceptedByNode(cfg: Config, run: seq<Action>, c: nat) returns (n: nat)
    requires IsRun(cfg, run) && c < |After(cfg, run).calls| && After(cfg, run).calls[c].state.Accepted?
    ensures n < |run| && run[n] == NodeAccepts(c, After(cfg, run).calls[c].state.hash)
    decreases |run|
  {
    hide Next;
    var before, a := AllButLast(cfg, run), run[|run| - 1];
    OneStepOfCall(cfg, After(cfg, before), a, c);
    if a == NodeAccepts(c, After(cfg, run).calls[c].state.hash) {
      n := |before|;
    } else {
      n := AcceptedByNode(cfg, before, c);
    }
  }

  /** The node accepted the operation of call c under hash h, the call has stored all its rows, and then
      its job was given that hash. */
  ghost predicate PublishedBy(run: seq<Action>, c: nat, n: nat, x: nat, j: nat, h: string) {
    && n < x < |run| && run[n] == NodeAccepts(c, h) && run[x] == WriteHash(c)
    && c < |Begun(run[..x])| && Begun(run[..x])[c].job == j
    && SentRows(run[..x], c) == Begun(run[..x])[c].left
  }

  /** In every interleaving a job is published only with a hash under which the node accepted the
      operation of a call for this very job, and after the call has stored all the rows it had to. */
  lemma {:induction false} PublishedWasAccepted(cfg: Config, run: seq<Action>, j: nat, h: string)
    requires IsRun(cfg, run) && (j, h) in After(cfg, run).published
    ensures exists c: nat, n: nat, x: nat :: PublishedBy(run, c, n, x, j, h)
    decreases |run|
  {
    hide Next, CallsMatch;
    var before, a := AllButLast(cfg, run), run[|run| - 1];
    var w := After(cfg, before);
    NextPublishes(cfg, w, a);
    if (j, h) in w.published {
      PublishedWasAccepted(cfg, before, j, h);
      var c: nat, n: nat, x: nat :| PublishedBy(before, c, n, x, j, h);
      assert before[..x] == run[..x];
      assert PublishedBy(run, c, n, x, j, h);
    } else {
      var c := a.call;
      var n := AcceptedByNode(cfg, before, c);
      RowsLeft(cfg, before, c);
      JobOfCall(cfg, before, c);
      assert run[..|before|] == before;
      assert PublishedBy(run, c, n, |before|, j, h);
    }
  }

  lemma JobOfCall(cfg: Config, run: seq<Action>, c: nat)
    requires IsRun(cfg, run) && c < |After(cfg, run).calls|
    ensures c < |Begun(run)| && After(cfg, run).calls[c].job == Begun(run)[c].job
  {
    hide Next;
    RowsAreStoredInOrder(cfg, run);
  }
}
