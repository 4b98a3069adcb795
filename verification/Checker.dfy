/** One pass of the status checker, undisturbed by other processes
    (src/processes/workers/check-operation-status/lib/check-operation-status.ts): what it leaves in
    the database and sends to the exchange, and that it is a run of the job protocol. */
module Checker {
  import opened Wrappers
  import opened Jobs
  import opened JobProtocol
  import Indexer

  // ----- runs from any world ----------------------------------------------------------------------------

  function Perform(cfg: Config, w: World, run: seq<Action>): Option<World> {
    if run == [] then Some(w)
    else
      var before := Perform(cfg, w, run[..|run| - 1]);
      if before.Some? && Enabled(before.value, run[|run| - 1]) then Some(Next(cfg, before.value, run[|run| - 1]))
      else None
  }

  /** What is performed from a reachable world is itself a run. */
  lemma {:induction false} PerformExtendsRuns(cfg: Config, run: seq<Action>, more: seq<Action>)
    requires IsRun(cfg, run) && Perform(cfg, After(cfg, run), more).Some?
    ensures IsRun(cfg, run + more) && After(cfg, run + more) == Perform(cfg, After(cfg, run), more).value
    decreases |more|
  {
    if more == [] {
      assert run + more == run;
    } else {
      PerformExtendsRuns(cfg, run, more[..|more| - 1]);
      assert (run + more)[..|run + more| - 1] == run + more[..|more| - 1];
    }
  }

  lemma Step(cfg: Config, w: World, run: seq<Action>, a: Action)
    requires Perform(cfg, w, run).Some? && Enabled(Perform(cfg, w, run).value, a)
    ensures Perform(cfg, w, run + [a]) == Some(Next(cfg, Perform(cfg, w, run).value, a))
  {
    assert (run + [a])[..|run|] == run;
  }

  // ----- the effect of a pass ---------------------------------------------------------------------------

  // What the pool and the clock tell the check of one job.
  datatype Answer = Answer(attempts: seq<Indexer.Attempt>, expired: bool)

  function Verdict(cfg: Config, a: Answer): Indexer.Verdict {
    Indexer.FirstVerdict(a.attempts, cfg.confirmations, cfg.retries)
  }

  /** A job row after its check. */
  function Checked(job: Job, v: Indexer.Verdict, expired: bool): Job {
    if v == Indexer.Confirmed(true) then job.(status := Done)
    else if v == Indexer.NotFound && expired then job.(status := Error)
    else if v == Indexer.Failed then job.(status := Error, message := Some("runtime_error"))
    else job
  }

  /** The event is due: its row belongs to the confirmed job, is announced, and has the event's kind. */
  predicate Due(e: Event, pass: nat, confirmed: set<nat>, rows: seq<Row>) {
    e.pass == pass && e.job in confirmed && e.row < |rows| && rows[e.row].job == e.job
    && Announced(rows[e.row].kind) && e.isReveal == rows[e.row].kind.isReveal
  }

  function ConfirmedJobs(cfg: Config, answers: map<nat, Answer>, jobs: set<nat>): set<nat> {
    set id | id in jobs && id in answers && Verdict(cfg, answers[id]) == Indexer.Confirmed(true)
  }

  /** One event for each announced row of a confirmed job, and nothing else. */
  ghost predicate Announces(
    before: multiset<Event>, after: multiset<Event>, pass: nat, confirmed: set<nat>, rows: seq<Row>)
  {
    forall e :: after[e] == before[e] + if Due(e, pass, confirmed, rows) then 1 else 0
  }

  /** The checked jobs are left as their own answers say, and no other job is touched. */
  ghost predicate LeavesChecked(before: Table, after: Table, cfg: Config, answers: map<nat, Answer>, checked: set<nat>)
    requires checked <= answers.Keys
  {
    && after.Keys == before.Keys
    && forall id :: id in before ==>
         after[id] == if id in checked then Checked(before[id], Verdict(cfg, answers[id]), answers[id].expired)
                      else before[id]
  }

  /** The check has nothing left to do. */
  predicate IdleIn(w: World, pass: nat, job: nat) {
    InState(w, pass, job) == Finished || (InState(w, pass, job).Publishing? && InState(w, pass, job).left == {})
  }

  /** Within a pass: some jobs are still to be asked about, others are through. */
  ghost predicate Between(w: World, pass: nat, todo: set<nat>, checked: set<nat>) {
    (forall id :: id in todo ==> InState(w, pass, id) == Asking) && (forall id :: id in checked ==> IdleIn(w, pass, id))
  }

  lemma TodoIsAsking(w: World, pass: nat, todo: set<nat>, checked: set<nat>, id: nat)
    requires Between(w, pass, todo, checked) && id in todo
    ensures InState(w, pass, id) == Asking
  {
  }

  lemma OneMoreIdle(w: World, w': World, pass: nat, todo: set<nat>, checked: set<nat>, id: nat)
    requires Between(w, pass, todo, checked) && IdleIn(w', pass, id)
    requires forall other :: other != id ==> InState(w', pass, other) == InState(w, pass, other)
    ensures Between(w', pass, todo - {id}, checked + {id})
  {
  }

  /** The events of the first n rows, as far as they belong to the job. */
  function RowEvents(pass: nat, job: nat, rows: seq<Row>, n: nat): multiset<Event>
    requires n <= |rows|
  {
    if n == 0 then multiset{}
    else
      var before := RowEvents(pass, job, rows, n - 1);
      if rows[n - 1].job == job && Announced(rows[n - 1].kind) then
        before + multiset{Event(pass, job, n - 1, rows[n - 1].kind.isReveal)}
      else before
  }

  lemma {:induction false} RowEventsAreDue(pass: nat, job: nat, rows: seq<Row>, n: nat, e: Event)
    requires n <= |rows|
    ensures RowEvents(pass, job, rows, n)[e] == if Due(e, pass, {job}, rows) && e.row < n then 1 else 0
  {
    if n > 0 {
      RowEventsAreDue(pass, job, rows, n - 1, e);
    }
  }

  /** What a pass has left in the table and sent to the exchange once it has checked some jobs. */
  ghost predicate PassEffect(t: Table, t': Table, sent: multiset<Event>, sent': multiset<Event>, cfg: Config, pass: nat,
                             answers: map<nat, Answer>, checked: set<nat>, rows: seq<Row>)
    requires checked <= answers.Keys
  {
    LeavesChecked(t, t', cfg, answers, checked)
    && Announces(sent, sent', pass, ConfirmedJobs(cfg, answers, checked), rows)
  }

  lemma OneMoreChecked(t: Table, t': Table, sent: multiset<Event>, sent': multiset<Event>, cfg: Config, pass: nat,
                       answers: map<nat, Answer>, checked: set<nat>, rows: seq<Row>, job: nat)
    requires checked <= answers.Keys && PassEffect(t, t', sent, sent', cfg, pass, answers, checked, rows)
    requires job !in checked && job in answers && job in t
    ensures var a := answers[job];
            && job in t'
            && PassEffect(t, t'[job := Checked(t'[job], Verdict(cfg, a), a.expired)], sent,
                          if Verdict(cfg, a) == Indexer.Confirmed(true)
                          then sent' + RowEvents(pass, job, rows, |rows|)
                          else sent',
                          cfg, pass, answers, checked + {job}, rows)
  {
    forall e ensures RowEvents(pass, job, rows, |rows|)[e] == if Due(e, pass, {job}, rows) then 1 else 0 {
      RowEventsAreDue(pass, job, rows, |rows|, e);
    }
  }

  /** The job is published with a hash. */
  predicate IsPublished(job: Job) {
    job.status == Published && job.hash.Some?
  }

  /** The first conclusive attempt within the retries is of that kind. */
  ghost predicate IsDeep(cfg: Config, a: Answer) {
    exists k: nat :: Indexer.Decides(a.attempts, cfg.retries, k)
                     && Indexer.IsDeepSuccess(a.attempts[k], cfg.confirmations)
  }

  ghost predicate HasFailed(cfg: Config, a: Answer) {
    exists k: nat :: Indexer.Decides(a.attempts, cfg.retries, k) && Indexer.IsFailure(a.attempts[k])
  }

  ghost predicate IsMissing(cfg: Config, a: Answer) {
    exists k: nat :: Indexer.Decides(a.attempts, cfg.retries, k) && Indexer.IsMissing(a.attempts[k])
  }

  /** What a pass leaves, read off the responses: of the published jobs, those whose first conclusive
      attempt is a deep success are done, those with a reported failure are in error with the message
      `runtime_error`, and those missing for too long are in error; every other job is as it was. And one
      event is sent for each row of the done ones that is a reveal or has parameters. */
  lemma PassMeans(t: Table, t': Table, sent: multiset<Event>, sent': multiset<Event>, cfg: Config, pass: nat,
                  answers: map<nat, Answer>, rows: seq<Row>)
    requires PublishedWithHash(t).Keys <= answers.Keys
    requires PassEffect(t, t', sent, sent', cfg, pass, answers, PublishedWithHash(t).Keys, rows)
    ensures t'.Keys == t.Keys
    ensures forall id :: id in t && !IsPublished(t[id]) ==> t'[id] == t[id]
    ensures forall id :: id in t && IsPublished(t[id]) ==>
              && id in answers
              && t'[id] == if IsDeep(cfg, answers[id]) then Job(Done, t[id].hash, t[id].message)
                           else if HasFailed(cfg, answers[id]) then Job(Error, t[id].hash, Some("runtime_error"))
                           else if IsMissing(cfg, answers[id]) && answers[id].expired
                           then Job(Error, t[id].hash, t[id].message)
                           else t[id]
    ensures forall e :: sent'[e] == sent[e] +
              if && e.pass == pass && e.job in t && IsPublished(t[e.job]) && IsDeep(cfg, answers[e.job])
                 && e.row < |rows| && rows[e.row].job == e.job
                 && (rows[e.row].kind.isReveal || rows[e.row].kind.parameters)
                 && e.isReveal == rows[e.row].kind.isReveal
              then 1 else 0
  {
    hide Indexer.FirstVerdict, IsDeep, HasFailed, IsMissing;
    forall id | id in answers
      ensures IsDeep(cfg, answers[id]) <==> Verdict(cfg, answers[id]) == Indexer.Confirmed(true)
      ensures HasFailed(cfg, answers[id]) <==> Verdict(cfg, answers[id]) == Indexer.Failed
      ensures IsMissing(cfg, answers[id]) <==> Verdict(cfg, answers[id]) == Indexer.NotFound
    {
      AnswerKinds(cfg, answers[id]);
    }
  }

  lemma AnswerKinds(cfg: Config, a: Answer)
    ensures IsDeep(cfg, a) <==> Verdict(cfg, a) == Indexer.Confirmed(true)
    ensures HasFailed(cfg, a) <==> Verdict(cfg, a) == Indexer.Failed
    ensures IsMissing(cfg, a) <==> Verdict(cfg, a) == Indexer.NotFound
  {
    hide Indexer.FirstVerdict, Indexer.Decides;
    Indexer.VerdictMeans(a.attempts, cfg.confirmations, cfg.retries);
  }

  // ----- what the actions of one check do -----------------------------------------------------------------

  ghost predicate MovesCheck(w: World, w': World, k: (nat, nat), s: CheckState) {
    k in w.checks && w'.checks == w.checks[k := w.checks[k].(state := s)] && w'.rows == w.rows && w'.passes == w.passes
  }

  lemma MovesOn(w: World, w1: World, w2: World, k: (nat, nat), s: CheckState, t: CheckState)
    requires MovesCheck(w, w1, k, s) && MovesCheck(w1, w2, k, t)
    ensures MovesCheck(w, w2, k, t) && w2.rows == w.rows
  {
  }

  /** The job's rows from the i-th row of the table on. */
  function Remaining(w: World, job: nat, i: nat): set<nat> {
    set r | i <= r < |w.rows| && w.rows[r].job == job
  }

  lemma RemainingRows(w: World, job: nat)
    ensures Remaining(w, job, 0) == RowsOf(w, job) && Remaining(w, job, |w.rows|) == {}
  {
  }

  lemma NextRemaining(w: World, w': World, pass: nat, job: nat, i: nat)
    requires MovesCheck(w, w', (pass, job), Publishing(RowsOf(w, job), Remaining(w, job, i))) && i < |w.rows|
    ensures InState(w', pass, job) == Publishing(RowsOf(w, job), Remaining(w, job, i))
    ensures if w.rows[i].job == job
            then i in Remaining(w, job, i) && Remaining(w, job, i) - {i} == Remaining(w, job, i + 1)
            else Remaining(w, job, i) == Remaining(w, job, i + 1)
  {
  }

  lemma AnswerStep(cfg: Config, w: World, pass: nat, job: nat, a: Answer)
    requires InState(w, pass, job) == Asking
    ensures var w' := Next(cfg, w, JobProtocol.Answer(pass, job, a.attempts, a.expired));
            && MovesCheck(w, w', (pass, job), AfterVerdict(Verdict(cfg, a), a.expired))
            && w'.jobs == w.jobs && w'.events == w.events
  {
  }

  lemma WriteStep(cfg: Config, w: World, pass: nat, job: nat)
    ensures InState(w, pass, job) == ToDone ==>
              var w' := Next(cfg, w, WriteDone(pass, job));
              && MovesCheck(w, w', (pass, job), Reading)
              && w'.jobs == WithStatus(w.jobs, Done, job) && w'.events == w.events
    ensures InState(w, pass, job).ToError? ==>
              var w', m := Next(cfg, w, WriteCheckError(pass, job)), InState(w, pass, job).message;
              && MovesCheck(w, w', (pass, job), Finished)
              && w'.jobs == (if m.None? then WithStatus(w.jobs, Error, job) else WithError(w.jobs, m.value, job))
              && w'.events == w.events
  {
  }

  lemma ReadRowsStep(cfg: Config, w: World, pass: nat, job: nat)
    requires InState(w, pass, job) == Reading
    ensures var w' := Next(cfg, w, ReadRows(pass, job));
            && MovesCheck(w, w', (pass, job), Publishing(RowsOf(w, job), RowsOf(w, job)))
            && w'.jobs == w.jobs && w'.events == w.events
  {
  }

  lemma PublishStep(cfg: Config, w: World, pass: nat, job: nat, r: nat)
    requires Enabled(w, Publish(pass, job, r)) && r < |w.rows|
    ensures var s, w' := InState(w, pass, job), Next(cfg, w, Publish(pass, job, r));
            && MovesCheck(w, w', (pass, job), Publishing(s.read, s.left - {r})) && w'.jobs == w.jobs
            && w'.events == (if Announced(w.rows[r].kind)
                             then w.events + multiset{Event(pass, job, r, w.rows[r].kind.isReveal)}
                             else w.events)
  {
  }

  lemma PassStarts(cfg: Config, w: World, answers: map<nat, Answer>)
    ensures var w', snapshot := Next(cfg, w, StartPass), PublishedWithHash(w.jobs).Keys;
            && w'.jobs == w.jobs && w'.rows == w.rows && w'.events == w.events
            && snapshot <= w.jobs.Keys && Between(w', w.passes, snapshot, {})
            && PassEffect(w.jobs, w'.jobs, w.events, w'.events, cfg, w.passes, answers, {}, w.rows)
  {
    forall id | id in PublishedWithHash(w.jobs)
      ensures (w.passes, id) in NewChecks(w.passes, PublishedWithHash(w.jobs))
    {
    }
  }

  // ----- the pass as it runs ------------------------------------------------------------------------------

  /** A checker with its view of the database and of what it has sent. The ghost fields are the world
      of the protocol it started in, the actions it has performed since, and the world they led to. */
  class Worker {
    const cfg: Config
    const pass: nat
    const table: JobsTable
    const rows: seq<Row>
    var events: multiset<Event>
    ghost const start: World
    ghost var run: seq<Action>
    ghost var world: World

    constructor (cfg: Config, pass: nat, table: JobsTable, rows: seq<Row>, events: multiset<Event>, ghost start: World)
      requires table.Valid() && table.rows == start.jobs && rows == start.rows && events == start.events
      requires pass == start.passes
      ensures Valid() && run == [] && this.start == start == world
      ensures this.cfg == cfg && this.pass == pass && this.table == table && this.rows == rows && this.events == events
    {
      this.cfg, this.pass, this.table, this.rows, this.events := cfg, pass, table, rows, events;
      this.start, run, world := start, [], start;
    }

    ghost predicate Valid()
      reads this, table
    {
      && table.Valid()
      && Perform(cfg, start, run) == Some(world)
      && table.rows == world.jobs && rows == world.rows && events == world.events
    }

    ghost method Act(a: Action)
      requires Perform(cfg, start, run) == Some(world) && Enabled(world, a)
      modifies `run, `world
      ensures Perform(cfg, start, run) == Some(world) && world == Next(cfg, old(world), a)
    {
      Step(cfg, start, run, a);
      run, world := run + [a], Next(cfg, world, a);
    }

    method PublishRow(job: nat, r: nat)
      requires Valid() && Enabled(world, Publish(pass, job, r)) && r < |rows|
      modifies `events, `run, `world
      ensures Valid()
      ensures var s := InState(old(world), pass, job);
              MovesCheck(old(world), world, (pass, job), Publishing(s.read, s.left - {r}))
      ensures events == if Announced(rows[r].kind)
                        then old(events) + multiset{Event(pass, job, r, rows[r].kind.isReveal)}
                        else old(events)
    {
      hide Next, Perform;
      PublishStep(cfg, world, pass, job, r);
      Act(Publish(pass, job, r));
      if rows[r].kind.isReveal {
        events := events + multiset{Event(pass, job, r, true)};
      } else if rows[r].kind.parameters {
        events := events + multiset{Event(pass, job, r, false)};
      }
    }

    /** The events of one confirmed job, row by row. A row that is neither a reveal nor has
        parameters throws inside its own publication and disturbs no other. */
    method PublishRows(job: nat)
      requires Valid() && InState(world, pass, job) == Reading
      modifies `events, `run, `world
      ensures Valid()
      ensures MovesCheck(old(world), world, (pass, job), Publishing(RowsOf(old(world), job), {}))
      ensures events == old(events) + RowEvents(pass, job, rows, |rows|)
    {
      hide Next, Perform;
      ghost var before := world;
      ReadRowsStep(cfg, world, pass, job);
      Act(ReadRows(pass, job));
      RemainingRows(before, job);
      hide RowsOf, Remaining, MovesCheck;
      for i := 0 to |rows|
        invariant Valid() && world.rows == before.rows
        invariant MovesCheck(before, world, (pass, job), Publishing(RowsOf(before, job), Remaining(before, job, i)))
        invariant events == old(events) + RowEvents(pass, job, rows, i)
      {
        NextRemaining(before, world, pass, job, i);
        if rows[i].job == job {
          ghost var w := world;
          PublishRow(job, i);
          MovesOn(before, w, world, (pass, job), InState(w, pass, job),
                  Publishing(RowsOf(before, job), Remaining(before, job, i + 1)));
        }
      }
    }

    /** The check of one job of the snapshot. */
    method CheckJob(job: nat, answer: Answer)
      requires Valid() && |answer.attempts| >= cfg.retries
      requires InState(world, pass, job) == Asking && job in table.rows
      modifies `events, `run, `world, table`rows
      ensures Valid()
      ensures table.rows == old(table.rows)[job := Checked(old(table.rows)[job], Verdict(cfg, answer), answer.expired)]
      ensures IdleIn(world, pass, job)
      ensures forall id :: id != job ==> InState(world, pass, id) == InState(old(world), pass, id)
      ensures events == if Verdict(cfg, answer) == Indexer.Confirmed(true)
                        then old(events) + RowEvents(pass, job, rows, |rows|) else old(events)
    {
      hide Next, Perform;
      var verdict := Indexer.CheckByRandomIndexer(answer.attempts, cfg.confirmations, cfg.retries);
      AnswerStep(cfg, world, pass, job, answer);
      Act(JobProtocol.Answer(pass, job, answer.attempts, answer.expired));
      WriteStep(cfg, world, pass, job);
      match verdict {
        case Confirmed(true) =>
          var _ := table.UpdateJobStatus(Done, job);
          Act(WriteDone(pass, job));
          PublishRows(job);
        case NotFound =>
          if answer.expired {
            var _ := table.UpdateJobStatus(Error, job);
            Act(WriteCheckError(pass, job));
          }
        case Failed =>
          var _ := table.UpdateJobStatusAndErrorMessage("runtime_error", job);
          Act(WriteCheckError(pass, job));
        case _ =>
      }
    }

    /** A whole pass, which is a run of the protocol and ends with all its checks idle. */
    method CheckOperationStatus(answers: map<nat, Answer>)
      requires Valid() && run == [] && world.passes == pass
      requires PublishedWithHash(table.rows).Keys <= answers.Keys
      requires forall id :: id in answers ==> |answers[id].attempts| >= cfg.retries
      modifies `events, `run, `world, table`rows
      ensures Valid()
      ensures var snapshot := PublishedWithHash(old(table.rows)).Keys;
              && PassEffect(old(table.rows), table.rows, old(events), events, cfg, pass, answers, snapshot, rows)
              && Between(world, pass, {}, snapshot)
    {
      hide Next, Perform, PassEffect, Between, IdleIn, PublishedWithHash, InState, Checked, Verdict, RowEvents;
      ghost var t, sent, checked := table.rows, events, {};
      PassStarts(cfg, world, answers);
      Act(StartPass);
      var todo := PublishedWithHash(table.rows).Keys;
      ghost var snapshot := todo;
      while todo != {}
        invariant checked == snapshot - todo && todo <= snapshot <= t.Keys && Valid()
        invariant PassEffect(t, table.rows, sent, events, cfg, pass, answers, checked, rows)
        invariant Between(world, pass, todo, checked)
      {
        var id :| id in todo;
        ghost var w := world;
        TodoIsAsking(w, pass, todo, checked, id);
        OneMoreChecked(t, table.rows, sent, events, cfg, pass, answers, checked, rows, id);
        CheckJob(id, answers[id]);
        OneMoreIdle(w, world, pass, todo, checked, id);
        todo, checked := todo - {id}, checked + {id};
      }
      assert checked == snapshot;
    }
  }
}
