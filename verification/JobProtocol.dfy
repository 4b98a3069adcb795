/** The life of jobs under concurrent web calls, queue workers and status checkers, which share the
    database without locks. One action is one await of the source: a query, a node or indexer
    answer, a publication. Every interleaving of enabled actions is a run. */
module JobProtocol {
  import opened Wrappers
  import opened Jobs
  import Indexer

  // What the operations table keeps of a row: its job, whether it is a reveal, and whether it has
  // `parameters_json`. A row's id is its index.
  datatype Kind = Kind(isReveal: bool, parameters: bool)
  datatype Row = Row(job: nat, kind: Kind)

  // A call of injectOperation, or of one of the two send functions, for one job. `left` counts the
  // rows a send call still has to insert.
  datatype CallState = Working | Accepted(hash: string) | Failing | Returned
  datatype Call = Call(job: nat, left: nat, state: CallState)

  // A checker pass handles each job of its snapshot on its own, keeping the hash it read.
  datatype CheckState =
    | Asking
    | ToDone
    | Reading
    | Publishing(read: set<nat>, left: set<nat>)
    | ToError(message: Option<string>)
    | Finished
  datatype Check = Check(hash: string, state: CheckState)

  datatype Event = Event(pass: nat, job: nat, row: nat, isReveal: bool)

  // The last four fields are history: (job, hash) pairs ever published, hashes ever reported deep
  // enough, (pass, job) pairs whose DONE write succeeded, and the events sent to the exchange.
  datatype World = World(
    jobs: Table, nextJob: nat, rows: seq<Row>,
    calls: seq<Call>, checks: map<(nat, nat), Check>, passes: nat,
    published: set<(nat, string)>, reported: set<string>, done: set<(nat, nat)>, events: multiset<Event>)

  datatype Config = Config(confirmations: int, retries: nat)

  datatype Action =
    | CreateJob
    | StoreRows(job: nat, kinds: seq<Kind>)                // forge: one INSERT for all rows
    | Begin(job: nat, left: nat)                           // inject or send starts on an existing job
    | NodeAccepts(call: nat, hash: string)
    | NodeRefuses(call: nat)
    | StoreSentRow(call: nat, kind: Kind)
    | StoreSentRowFails(call: nat)
    | WriteHash(call: nat)
    | WriteHashFails(call: nat)
    | WriteError(call: nat, message: string)
    | WriteErrorFails(call: nat)
    | StartPass
    | Answer(pass: nat, job: nat, attempts: seq<Indexer.Attempt>, expired: bool)
    | WriteDone(pass: nat, job: nat)
    | WriteCheckError(pass: nat, job: nat)
    | ReadRows(pass: nat, job: nat)
    | Publish(pass: nat, job: nat, row: nat)
    | CheckFails(pass: nat, job: nat)                      // a database error in a check

  const INIT := World(map[], 0, [], [], map[], 0, {}, {}, {}, multiset{})

  function InState(w: World, pass: nat, job: nat): CheckState {
    if (pass, job) in w.checks then w.checks[(pass, job)].state else Finished
  }

  predicate Enabled(w: World, a: Action) {
    match a
    case CreateJob => true
    case StoreRows(j, _) => j in w.jobs
    case Begin(j, _) => j in w.jobs
    case NodeAccepts(c, _) => c < |w.calls| && w.calls[c].state == Working
    case NodeRefuses(c) => c < |w.calls| && w.calls[c].state == Working
    case StoreSentRow(c, _) => c < |w.calls| && w.calls[c].left > 0 && !w.calls[c].state.Working?
    case StoreSentRowFails(c) => c < |w.calls| && w.calls[c].left > 0 && w.calls[c].state.Accepted?
    case WriteHash(c) => c < |w.calls| && w.calls[c].left == 0 && w.calls[c].state.Accepted?
    case WriteHashFails(c) => c < |w.calls| && w.calls[c].left == 0 && w.calls[c].state.Accepted?
    case WriteError(c, _) => c < |w.calls| && w.calls[c].state == Failing
    case WriteErrorFails(c) => c < |w.calls| && w.calls[c].state == Failing
    case StartPass => true
    case Answer(p, j, _, _) => InState(w, p, j) == Asking
    case WriteDone(p, j) => InState(w, p, j) == ToDone
    case WriteCheckError(p, j) => InState(w, p, j).ToError?
    case ReadRows(p, j) => InState(w, p, j) == Reading
    case Publish(p, j, r) => InState(w, p, j).Publishing? && r in InState(w, p, j).left
    case CheckFails(p, j) =>
      InState(w, p, j) in {ToDone, Reading} || InState(w, p, j).ToError?
  }

  function SetCall(w: World, c: nat, s: CallState): World
    requires c < |w.calls|
  {
    w.(calls := w.calls[c := w.calls[c].(state := s)])
  }

  function SetCheck(w: World, p: nat, j: nat, s: CheckState): World
    requires (p, j) in w.checks
  {
    w.(checks := w.checks[(p, j) := w.checks[(p, j)].(state := s)])
  }

  /** The job's rows as selectOperation returns them. */
  function RowsOf(w: World, job: nat): set<nat> {
    set r | 0 <= r < |w.rows| && w.rows[r].job == job
  }

  /** A reveal is announced as such; any other row needs `parameters_json`. */
  predicate Announced(k: Kind) {
    k.isReveal || k.parameters
  }

  /** What a check does once the pool has answered. A missing operation expires when its first row
      is older than the limit; without any row the check crashes. */
  function AfterVerdict(v: Indexer.Verdict, expired: bool): CheckState {
    match v
    case Confirmed(true) => ToDone
    case NotFound => if expired then ToError(None) else Finished
    case Failed => ToError(Some("runtime_error"))
    case _ => Finished
  }

  /** One check for each job of the snapshot. */
  function NewChecks(pass: nat, snapshot: map<nat, string>): map<(nat, nat), Check> {
    map k | k in (set j | j in snapshot :: (pass, j)) :: Check(snapshot[k.1], Asking)
  }

  function Next(cfg: Config, w: World, a: Action): World
    requires Enabled(w, a)
  {
    match a
    case CreateJob => w.(jobs := w.jobs[w.nextJob := NEW_JOB], nextJob := w.nextJob + 1)
    case StoreRows(j, kinds) => w.(rows := w.rows + seq(|kinds|, i requires 0 <= i < |kinds| => Row(j, kinds[i])))
    case Begin(j, left) => w.(calls := w.calls + [Call(j, left, Working)])
    case NodeAccepts(c, hash) => SetCall(w, c, Accepted(hash))
    case NodeRefuses(c) => w.(calls := w.calls[c := Call(w.calls[c].job, 0, Failing)])
    case StoreSentRow(c, kind) =>
      w.(rows := w.rows + [Row(w.calls[c].job, kind)], calls := w.calls[c := w.calls[c].(left := w.calls[c].left - 1)])
    case StoreSentRowFails(c) => w.(calls := w.calls[c := Call(w.calls[c].job, w.calls[c].left - 1, Failing)])
    case WriteHash(c) =>
      var job, hash := w.calls[c].job, w.calls[c].state.hash;
      SetCall(w, c, Returned).(jobs := WithHash(w.jobs, hash, job), published := w.published + {(job, hash)})
    case WriteHashFails(c) => SetCall(w, c, Failing)
    case WriteError(c, message) => SetCall(w, c, Returned).(jobs := WithError(w.jobs, message, w.calls[c].job))
    case WriteErrorFails(c) => SetCall(w, c, Returned)
    case StartPass =>
      var snapshot := PublishedWithHash(w.jobs);
      w.(checks := w.checks + NewChecks(w.passes, snapshot), passes := w.passes + 1)
    case Answer(p, j, attempts, expired) =>
      var v := Indexer.FirstVerdict(attempts, cfg.confirmations, cfg.retries);
      var w' := SetCheck(w, p, j, AfterVerdict(v, expired));
      if v == Indexer.Confirmed(true) then w'.(reported := w.reported + {w.checks[(p, j)].hash}) else w'
    case WriteDone(p, j) =>
      SetCheck(w, p, j, Reading).(jobs := WithStatus(w.jobs, Done, j), done := w.done + {(p, j)})
    case WriteCheckError(p, j) =>
      var m := InState(w, p, j).message;
      SetCheck(w, p, j, Finished)
        .(jobs := if m.None? then WithStatus(w.jobs, Error, j) else WithError(w.jobs, m.value, j))
    case ReadRows(p, j) => SetCheck(w, p, j, Publishing(RowsOf(w, j), RowsOf(w, j)))
    case Publish(p, j, r) =>
      var s := InState(w, p, j);
      var w' := SetCheck(w, p, j, Publishing(s.read, s.left - {r}));
      if r < |w.rows| && Announced(w.rows[r].kind) then
        w'.(events := w.events + multiset{Event(p, j, r, w.rows[r].kind.isReveal)})
      else w'
    case CheckFails(p, j) => SetCheck(w, p, j, Finished)
  }

  // ----- runs -----------------------------------------------------------------------------------------

  /** The world after a run; None when some action was not enabled. */
  function Exec(cfg: Config, run: seq<Action>): Option<World> {
    if run == [] then Some(INIT)
    else
      var before := Exec(cfg, run[..|run| - 1]);
      if before.Some? && Enabled(before.value, run[|run| - 1]) then Some(Next(cfg, before.value, run[|run| - 1]))
      else None
  }

  predicate IsRun(cfg: Config, run: seq<Action>) {
    Exec(cfg, run).Some?
  }

  function After(cfg: Config, run: seq<Action>): World
    requires IsRun(cfg, run)
  {
    Exec(cfg, run).value
  }

  // ----- the table and its history --------------------------------------------------------------------

  /** Statuses, hashes and the pairs ever published agree. */
  ghost predicate TableInv(t: Table, nextJob: nat, published: set<(nat, string)>) {
    && (forall id :: id in t ==> id < nextJob)
    && (forall id :: id in t && t[id].status == Created ==> t[id].hash.None?)
    && (forall id :: id in t && t[id].status in {Published, Done} ==> t[id].hash.Some?)
    && (forall id :: id in t && t[id].hash.Some? ==> (id, t[id].hash.value) in published)
    && (forall id, h :: (id, h) in published ==> id in t && t[id].hash.Some?)
  }

  /** A check keeps a hash its job once had; past the answer it needs a deep success report on that
      hash, and past the DONE write that write is on record. */
  ghost predicate CheckOk(k: (nat, nat), c: Check, passes: nat, published: set<(nat, string)>,
                          reported: set<string>, done: set<(nat, nat)>) {
    && k.0 < passes
    && (k.1, c.hash) in published
    && (c.state == ToDone || c.state == Reading || c.state.Publishing? ==> c.hash in reported)
    && (c.state == Reading || c.state.Publishing? ==> k in done)
    && (c.state == Asking || c.state == ToDone || c.state.ToError? ==> k !in done)
  }

  ghost predicate ChecksInv(checks: map<(nat, nat), Check>, passes: nat, published: set<(nat, string)>,
                            reported: set<string>, done: set<(nat, nat)>) {
    && (forall k :: k in checks ==> CheckOk(k, checks[k], passes, published, reported, done))
    && (forall k :: k in done ==> k in checks && checks[k].hash in reported)
  }

  ghost predicate DoneOnRecord(t: Table, done: set<(nat, nat)>) {
    forall j :: j in t && t[j].status == Done ==> exists k :: k in done && k.1 == j
  }

  ghost predicate ReferencesInv(w: World) {
    && (forall c :: 0 <= c < |w.calls| ==> w.calls[c].job in w.jobs)
    && (forall r :: 0 <= r < |w.rows| ==> w.rows[r].job in w.jobs)
  }

  ghost predicate Inv(w: World) {
    && TableInv(w.jobs, w.nextJob, w.published)
    && ChecksInv(w.checks, w.passes, w.published, w.reported, w.done)
    && DoneOnRecord(w.jobs, w.done)
    && ReferencesInv(w)
  }

  lemma WithHashKeepsInv(t: Table, n: nat, published: set<(nat, string)>, hash: string, id: nat)
    requires TableInv(t, n, published) && id in t
    ensures TableInv(WithHash(t, hash, id), n, published + {(id, hash)})
  {
  }

  // Checks and calls move independently: what each kind of action leaves alone.

  predicate IsCheckAction(a: Action) {
    a.StartPass? || a.Answer? || a.WriteDone? || a.WriteCheckError? || a.ReadRows? || a.Publish? || a.CheckFails?
  }

  lemma CallActionsLeaveChecks(cfg: Config, w: World, a: Action)
    requires Enabled(w, a) && !IsCheckAction(a)
    ensures var w' := Next(cfg, w, a);
            w'.checks == w.checks && w'.passes == w.passes && w'.reported == w.reported && w'.done == w.done
            && w'.events == w.events && w.published <= w'.published && w.rows <= w'.rows
  {
  }

  lemma CheckActionsLeaveCalls(cfg: Config, w: World, a: Action)
    requires Enabled(w, a) && IsCheckAction(a)
    ensures var w' := Next(cfg, w, a);
            w'.calls == w.calls && w'.rows == w.rows && w'.published == w.published && w'.nextJob == w.nextJob
            && w'.jobs.Keys == w.jobs.Keys
  {
  }

  /** The jobs table alone: six actions write it. */
  function NextJobs(w: World, a: Action): Table
    requires Enabled(w, a)
  {
    match a
    case CreateJob => w.jobs[w.nextJob := NEW_JOB]
    case WriteHash(c) => WithHash(w.jobs, w.calls[c].state.hash, w.calls[c].job)
    case WriteError(c, message) => WithError(w.jobs, message, w.calls[c].job)
    case WriteDone(p, j) => WithStatus(w.jobs, Done, j)
    case WriteCheckError(p, j) =>
      var m := InState(w, p, j).message;
      if m.None? then WithStatus(w.jobs, Error, j) else WithError(w.jobs, m.value, j)
    case _ => w.jobs
  }

  lemma NextWritesJobs(cfg: Config, w: World, a: Action)
    requires Enabled(w, a)
    ensures Next(cfg, w, a).jobs == NextJobs(w, a)
  {
    match a
    case WriteHash(_) =>
    case WriteError(_, _) =>
    case WriteDone(_, _) =>
    case WriteCheckError(_, _) =>
    case _ =>
  }

  lemma NextPublishes(cfg: Config, w: World, a: Action)
    requires Enabled(w, a)
    ensures var w' := Next(cfg, w, a);
            && w'.nextJob == (if a.CreateJob? then w.nextJob + 1 else w.nextJob)
            && w'.published == (if a.WriteHash? then w.published + {(w.calls[a.call].job, w.calls[a.call].state.hash)}
                                else w.published)
  {
    if IsCheckAction(a) { CheckActionsLeaveCalls(cfg, w, a); }
  }

  lemma NextRecordsDone(cfg: Config, w: World, a: Action)
    requires Enabled(w, a)
    ensures Next(cfg, w, a).done == (if a.WriteDone? then w.done + {(a.pass, a.job)} else w.done)
  {
    if !IsCheckAction(a) { CallActionsLeaveChecks(cfg, w, a); }
  }

  lemma NewJobKeepsInv(t: Table, n: nat, published: set<(nat, string)>)
    requires TableInv(t, n, published)
    ensures TableInv(t[n := NEW_JOB], n + 1, published)
  {
  }

  /** A check's write names a job that has a hash; a call's error may meet one that has none. */
  lemma StatusWritesKeepInv(t: Table, n: nat, published: set<(nat, string)>, message: string, id: nat)
    requires TableInv(t, n, published)
    ensures TableInv(WithError(t, message, id), n, published)
    ensures id in t && t[id].hash.Some? ==>
              TableInv(WithStatus(t, Done, id), n, published) && TableInv(WithStatus(t, Error, id), n, published)
  {
  }

  lemma TableInvNext(cfg: Config, w: World, a: Action)
    requires Inv(w) && Enabled(w, a)
    ensures var w' := Next(cfg, w, a); TableInv(w'.jobs, w'.nextJob, w'.published)
  {
    hide Next, TableInv, WithHash, WithStatus, WithError;
    NextWritesJobs(cfg, w, a);
    NextPublishes(cfg, w, a);
    match a
    case CreateJob => NewJobKeepsInv(w.jobs, w.nextJob, w.published);
    case WriteHash(c) => WithHashKeepsInv(w.jobs, w.nextJob, w.published, w.calls[c].state.hash, w.calls[c].job);
    case WriteError(c, message) => StatusWritesKeepInv(w.jobs, w.nextJob, w.published, message, w.calls[c].job);
    case WriteDone(p, j) =>
      CheckedJobHasHash(w, p, j);
      StatusWritesKeepInv(w.jobs, w.nextJob, w.published, "", j);
    case WriteCheckError(p, j) =>
      CheckedJobHasHash(w, p, j);
      var m := InState(w, p, j).message;
      StatusWritesKeepInv(w.jobs, w.nextJob, w.published, if m.Some? then m.value else "", j);
    case _ =>
  }

  lemma CheckedJobHasHash(w: World, p: nat, j: nat)
    requires Inv(w) && (p, j) in w.checks
    ensures j in w.jobs && w.jobs[j].hash.Some? && w.jobs[j].status != Created
  {
    assert CheckOk((p, j), w.checks[(p, j)], w.passes, w.published, w.reported, w.done);
  }

  lemma ReferencesInvNext(cfg: Config, w: World, a: Action)
    requires Inv(w) && Enabled(w, a)
    ensures ReferencesInv(Next(cfg, w, a))
  {
    if IsCheckAction(a) { CheckActionsLeaveCalls(cfg, w, a); }
  }

  lemma DoneOnRecordNext(cfg: Config, w: World, a: Action)
    requires Inv(w) && Enabled(w, a)
    ensures DoneOnRecord(Next(cfg, w, a).jobs, Next(cfg, w, a).done)
  {
    NextWritesJobs(cfg, w, a);
    NextRecordsDone(cfg, w, a);
    var done := Next(cfg, w, a).done;
    forall j | j in NextJobs(w, a) && NextJobs(w, a)[j].status == Done ensures exists k :: k in done && k.1 == j {
      if a.WriteDone? && a.job == j {
        assert (a.pass, j) in done;
      } else {
        assert w.jobs[j].status == Done;
      }
    }
  }

  /** Moving one check to another state, with what that state demands put on record. */
  lemma ChecksInvSet(w: World, k: (nat, nat), s: CheckState, reported: set<string>, done: set<(nat, nat)>)
    requires ChecksInv(w.checks, w.passes, w.published, w.reported, w.done) && k in w.checks
    requires w.reported <= reported && w.done <= done <= w.done + {k}
    requires CheckOk(k, w.checks[k].(state := s), w.passes, w.published, reported, done)
    requires k in done ==> w.checks[k].hash in reported
    ensures ChecksInv(w.checks[k := w.checks[k].(state := s)], w.passes, w.published, reported, done)
  {
    var checks := w.checks[k := w.checks[k].(state := s)];
    forall l | l in checks ensures CheckOk(l, checks[l], w.passes, w.published, reported, done) {
      assert CheckOk(l, w.checks[l], w.passes, w.published, w.reported, w.done);
    }
  }

  lemma StartPassKeepsChecksInv(w: World)
    requires Inv(w)
    ensures var w' := Next(Config(0, 0), w, StartPass);
            ChecksInv(w'.checks, w'.passes, w'.published, w'.reported, w'.done)
  {
    var w' := Next(Config(0, 0), w, StartPass);
    forall k | k in w'.checks ensures CheckOk(k, w'.checks[k], w'.passes, w'.published, w'.reported, w'.done) {
      if k in w.checks {
        assert CheckOk(k, w.checks[k], w.passes, w.published, w.reported, w.done);
      } else {
        assert k in NewChecks(w.passes, PublishedWithHash(w.jobs));
      }
    }
  }

  lemma ChecksInvNext(cfg: Config, w: World, a: Action)
    requires Inv(w) && Enabled(w, a)
    ensures var w' := Next(cfg, w, a); ChecksInv(w'.checks, w'.passes, w'.published, w'.reported, w'.done)
  {
    var w' := Next(cfg, w, a);
    if !IsCheckAction(a) {
      CallActionsLeaveChecks(cfg, w, a);
      forall k | k in w.checks ensures CheckOk(k, w.checks[k], w.passes, w'.published, w.reported, w.done) {
        assert CheckOk(k, w.checks[k], w.passes, w.published, w.reported, w.done);
      }
    } else if a.StartPass? {
      StartPassKeepsChecksInv(w);
    } else {
      var k := (a.pass, a.job);
      assert CheckOk(k, w.checks[k], w.passes, w.published, w.reported, w.done);
      ChecksInvSet(w, k, w'.checks[k].state, w'.reported, w'.done);
    }
  }

  lemma InvNext(cfg: Config, w: World, a: Action)
    requires Inv(w) && Enabled(w, a)
    ensures Inv(Next(cfg, w, a))
  {
    TableInvNext(cfg, w, a);
    ChecksInvNext(cfg, w, a);
    DoneOnRecordNext(cfg, w, a);
    ReferencesInvNext(cfg, w, a);
  }

  // ----- over whole runs --------------------------------------------------------------------------------

  lemma {:induction false} PrefixIsRun(cfg: Config, run: seq<Action>, i: nat)
    requires IsRun(cfg, run) && i <= |run|
    ensures IsRun(cfg, run[..i])
    decreases |run|
  {
    if i < |run| {
      PrefixIsRun(cfg, run[..|run| - 1], i);
      assert run[..|run| - 1][..i] == run[..i];
    } else {
      assert run[..i] == run;
    }
  }

  lemma {:induction false} RunsKeepInv(cfg: Config, run: seq<Action>)
    requires IsRun(cfg, run)
    ensures Inv(After(cfg, run))
    decreases |run|
  {
    if run != [] {
      RunsKeepInv(cfg, run[..|run| - 1]);
      InvNext(cfg, After(cfg, run[..|run| - 1]), run[|run| - 1]);
    }
  }

  /** The world after the first i actions. */
  ghost function WorldAt(cfg: Config, run: seq<Action>, i: nat): World
    requires IsRun(cfg, run) && i <= |run|
  {
    PrefixIsRun(cfg, run, i);
    After(cfg, run[..i])
  }

  ghost function JobsAt(cfg: Config, run: seq<Action>, i: nat): Table
    requires IsRun(cfg, run) && i <= |run|
  {
    WorldAt(cfg, run, i).jobs
  }

  ghost predicate WasPublished(cfg: Config, run: seq<Action>, j: nat, h: string)
    requires IsRun(cfg, run)
  {
    exists i :: 0 <= i <= |run| && j in JobsAt(cfg, run, i) && JobsAt(cfg, run, i)[j].status == Published
                && JobsAt(cfg, run, i)[j].hash == Some(h)
  }

  /** Action i is the answer to a check that asked about hash h, and contains a deep success. */
  ghost predicate ReportsDeepSuccess(cfg: Config, run: seq<Action>, i: nat, h: string)
    requires IsRun(cfg, run)
  {
    i < |run| && run[i].Answer?
    && (PrefixIsRun(cfg, run, i);
        var w, k := After(cfg, run[..i]), (run[i].pass, run[i].job);
        k in w.checks && w.checks[k].hash == h)
    && exists n: nat :: Indexer.Decides(run[i].attempts, cfg.retries, n)
                        && Indexer.IsDeepSuccess(run[i].attempts[n], cfg.confirmations)
  }

  ghost predicate WasReported(cfg: Config, run: seq<Action>, h: string)
    requires IsRun(cfg, run)
  {
    exists i: nat :: ReportsDeepSuccess(cfg, run, i, h)
  }

  lemma WasPublishedEarlier(cfg: Config, run: seq<Action>, j: nat, h: string)
    requires run != [] && IsRun(cfg, run) && IsRun(cfg, run[..|run| - 1]) && WasPublished(cfg, run[..|run| - 1], j, h)
    ensures WasPublished(cfg, run, j, h)
  {
    var before := run[..|run| - 1];
    var i :| 0 <= i <= |before| && j in JobsAt(cfg, before, i) && JobsAt(cfg, before, i)[j].status == Published
             && JobsAt(cfg, before, i)[j].hash == Some(h);
    assert before[..i] == run[..i];
    assert JobsAt(cfg, run, i) == JobsAt(cfg, before, i);
  }

  /** The publication history tells what was in the table at some moment of the run. */
  lemma {:induction false} PublishedIsHistory(cfg: Config, run: seq<Action>, j: nat, h: string)
    requires IsRun(cfg, run) && (j, h) in After(cfg, run).published
    ensures WasPublished(cfg, run, j, h)
    decreases |run|
  {
    var before := run[..|run| - 1];
    var w := After(cfg, before);
    if (j, h) in w.published {
      PublishedIsHistory(cfg, before, j, h);
      WasPublishedEarlier(cfg, run, j, h);
    } else {
      RunsKeepInv(cfg, before);
      assert run[|run| - 1].WriteHash?;
      assert run[..|run|] == run;
      assert JobsAt(cfg, run, |run|)[j].hash == Some(h);
    }
  }

  lemma WasReportedEarlier(cfg: Config, run: seq<Action>, h: string)
    requires run != [] && IsRun(cfg, run) && IsRun(cfg, run[..|run| - 1]) && WasReported(cfg, run[..|run| - 1], h)
    ensures WasReported(cfg, run, h)
  {
    var before := run[..|run| - 1];
    var i: nat :| ReportsDeepSuccess(cfg, before, i, h);
    assert before[..i] == run[..i] && before[i] == run[i];
    assert ReportsDeepSuccess(cfg, run, i, h);
  }

  lemma {:induction false} ReportedIsHistory(cfg: Config, run: seq<Action>, h: string)
    requires IsRun(cfg, run) && h in After(cfg, run).reported
    ensures WasReported(cfg, run, h)
    decreases |run|
  {
    var before, a := run[..|run| - 1], run[|run| - 1];
    var w := After(cfg, before);
    if h in w.reported {
      ReportedIsHistory(cfg, before, h);
      WasReportedEarlier(cfg, run, h);
    } else {
      assert a.Answer? && w.checks[(a.pass, a.job)].hash == h;
      Indexer.VerdictMeans(a.attempts, cfg.confirmations, cfg.retries);
      assert ReportsDeepSuccess(cfg, run, |run| - 1, h);
    }
  }

  // ----- what no interleaving can undo -----------------------------------------------------------------

  /** A later table: jobs stay, hashes are never cleared, no job becomes `created` again. */
  ghost predicate Later(t: Table, t': Table) {
    forall j :: j in t ==>
      && j in t'
      && (t[j].hash.Some? ==> t'[j].hash.Some?)
      && (t[j].status != Created ==> t'[j].status != Created)
  }

  lemma NextIsLater(cfg: Config, w: World, a: Action)
    requires Inv(w) && Enabled(w, a)
    ensures Later(w.jobs, Next(cfg, w, a).jobs)
    ensures forall j :: j !in w.jobs && j in Next(cfg, w, a).jobs ==> Next(cfg, w, a).jobs[j] == NEW_JOB
  {
    NextWritesJobs(cfg, w, a);
    WritesAreLater(w, a);
  }

  lemma WritesAreLater(w: World, a: Action)
    requires TableInv(w.jobs, w.nextJob, w.published) && Enabled(w, a)
    ensures Later(w.jobs, NextJobs(w, a))
    ensures forall j :: j !in w.jobs && j in NextJobs(w, a) ==> NextJobs(w, a)[j] == NEW_JOB
  {
  }

  /** Each job starts `created` without a hash; between any two moments of any run no hash is
      cleared and no job returns to `created`; a published or done job has a hash. */
  lemma {:induction false} JobsOnlyMoveForward(cfg: Config, run: seq<Action>, i: nat)
    requires IsRun(cfg, run) && i <= |run|
    ensures var t, t' := JobsAt(cfg, run, i), After(cfg, run).jobs;
            && Later(t, t')
            && (i == |run| - 1 ==> forall j :: j in t' && j !in t ==> t'[j] == NEW_JOB)
            && (forall j :: j in t' && t'[j].status in {Published, Done} ==> t'[j].hash.Some?)
    decreases |run| - i
  {
    RunsKeepInv(cfg, run);
    if i == |run| {
      assert run[..i] == run;
    } else {
      var before := run[..|run| - 1];
      PrefixIsRun(cfg, run, |run| - 1);
      assert before[..i] == run[..i];
      JobsOnlyMoveForward(cfg, before, i);
      RunsKeepInv(cfg, before);
      NextIsLater(cfg, After(cfg, before), run[|run| - 1]);
    }
  }

  // ----- a stale snapshot -----------------------------------------------------------------------------

  lemma Extend(cfg: Config, run: seq<Action>, a: Action)
    requires IsRun(cfg, run) && Enabled(After(cfg, run), a)
    ensures IsRun(cfg, run + [a]) && After(cfg, run + [a]) == Next(cfg, After(cfg, run), a)
  {
    assert (run + [a])[..|run|] == run;
  }

  lemma AJobIsPublished(cfg: Config) returns (r: seq<Action>)
    ensures IsRun(cfg, r)
    ensures After(cfg, r) == INIT.(jobs := map[0 := Job(Published, Some("first"), None)], nextJob := 1,
                                   calls := [Call(0, 0, Returned)], published := {(0, "first")})
  {
    r := [];
    Extend(cfg, r, CreateJob); r := r + [CreateJob];
    Extend(cfg, r, Begin(0, 0)); r := r + [Begin(0, 0)];
    Extend(cfg, r, NodeAccepts(0, "first")); r := r + [NodeAccepts(0, "first")];
    Extend(cfg, r, WriteHash(0)); r := r + [WriteHash(0)];
  }

  lemma ItsHashIsReported(cfg: Config) returns (r: seq<Action>)
    requires cfg == Config(1, 1)
    ensures IsRun(cfg, r)
    ensures var w := After(cfg, r);
            w.jobs == map[0 := Job(Published, Some("first"), None)] && w.calls == [Call(0, 0, Returned)]
            && w.reported == {"first"} && (0, 0) in w.checks && w.checks[(0, 0)] == Check("first", ToDone)
  {
    r := AJobIsPublished(cfg);
    var snapshot := PublishedWithHash(After(cfg, r).jobs);
    assert snapshot == map[0 := "first"];
    Extend(cfg, r, StartPass); r := r + [StartPass];
    assert (0, 0) in NewChecks(0, snapshot);
    var success := Indexer.Attempt(Indexer.Reported(true, Some(1)), Some(2));
    assert Indexer.FirstVerdict([success], 1, 1) == Indexer.Confirmed(true);
    Extend(cfg, r, Answer(0, 0, [success], false)); r := r + [Answer(0, 0, [success], false)];
  }

  lemma ItIsInjectedAgain(cfg: Config) returns (r: seq<Action>)
    requires cfg == Config(1, 1)
    ensures IsRun(cfg, r)
    ensures var w := After(cfg, r);
            w.jobs == map[0 := Job(Published, Some("second"), None)] && w.reported == {"first"}
            && (0, 0) in w.checks && w.checks[(0, 0)] == Check("first", ToDone)
  {
    r := ItsHashIsReported(cfg);
    Extend(cfg, r, Begin(0, 0)); r := r + [Begin(0, 0)];
    Extend(cfg, r, NodeAccepts(1, "second")); r := r + [NodeAccepts(1, "second")];
    Extend(cfg, r, WriteHash(1)); r := r + [WriteHash(1)];
  }

  /** The checker asks about one hash, the job is injected again under another one, and the DONE write,
      which names the job only, marks the new hash done. */
  lemma StaleSnapshotMarksUnreportedHashDone()
    ensures exists cfg, run :: IsRun(cfg, run)
              && var w := After(cfg, run);
                 0 in w.jobs && w.jobs[0].status == Done && w.jobs[0].hash == Some("second") && w.reported == {"first"}
  {
    var cfg := Config(1, 1);
    var r := ItIsInjectedAgain(cfg);
    Extend(cfg, r, WriteDone(0, 0)); r := r + [WriteDone(0, 0)];
  }
}
