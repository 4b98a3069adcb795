/** What lies behind the state of a check, at which moments of the run: the start of its pass, the
    answer, the DONE write, the reading of the rows. */
module JobHistory {
  import opened Wrappers
  import opened Jobs
  import opened JobProtocol
  import Indexer

  // ----- moments of a run -------------------------------------------------------------------------------

  /** Action s starts pass p, and its snapshot has job j, then published with hash h. */
  ghost predicate Starts(cfg: Config, run: seq<Action>, s: nat, p: nat, j: nat, h: string)
    requires IsRun(cfg, run)
  {
    && s < |run| && run[s] == StartPass && WorldAt(cfg, run, s).passes == p
    && j in JobsAt(cfg, run, s)
    && JobsAt(cfg, run, s)[j].status == Published && JobsAt(cfg, run, s)[j].hash == Some(h)
  }

  /** Action i answers the check of job j in pass p with a success at the required depth. */
  ghost predicate Confirms(cfg: Config, run: seq<Action>, i: nat, p: nat, j: nat) {
    && i < |run| && run[i].Answer? && run[i].pass == p && run[i].job == j
    && exists n: nat :: Indexer.Decides(run[i].attempts, cfg.retries, n)
                        && Indexer.IsDeepSuccess(run[i].attempts[n], cfg.confirmations)
  }

  /** Action i answers it with a reported failure, or with a missing operation that is too old. */
  ghost predicate Refuses(cfg: Config, run: seq<Action>, i: nat, p: nat, j: nat, message: Option<string>) {
    && i < |run| && run[i].Answer? && run[i].pass == p && run[i].job == j
    && exists n: nat :: Indexer.Decides(run[i].attempts, cfg.retries, n)
                        && if message.None? then Indexer.IsMissing(run[i].attempts[n]) && run[i].expired
                           else message == Some("runtime_error") && Indexer.IsFailure(run[i].attempts[n])
  }

  ghost predicate WritesDone(run: seq<Action>, i: nat, p: nat, j: nat) {
    i < |run| && run[i] == WriteDone(p, j)
  }

  /** Action i reads all rows of job j that are stored at that moment. */
  ghost predicate Reads(cfg: Config, run: seq<Action>, i: nat, p: nat, j: nat, read: set<nat>)
    requires IsRun(cfg, run)
  {
    i < |run| && run[i] == ReadRows(p, j) && read == RowsOf(WorldAt(cfg, run, i), j)
  }

  ghost function AllButLast(cfg: Config, run: seq<Action>): (before: seq<Action>)
    requires IsRun(cfg, run) && run != []
    ensures IsRun(cfg, before) && |before| == |run| - 1 && forall i :: 0 <= i < |before| ==> before[i] == run[i]
    ensures Enabled(After(cfg, before), run[|run| - 1])
    ensures After(cfg, run) == Next(cfg, After(cfg, before), run[|run| - 1])
    ensures forall i :: 0 <= i <= |before| ==> WorldAt(cfg, before, i) == WorldAt(cfg, run, i)
    ensures WorldAt(cfg, run, |before|) == After(cfg, before)
  {
    var before := run[..|run| - 1];
    assert forall i :: 0 <= i <= |before| ==> before[..i] == run[..i];
    before
  }

  // ----- one step of a check ----------------------------------------------------------------------------

  /** What an action may make of the state of a check. */
  ghost predicate Moves(cfg: Config, w: World, a: Action, k: (nat, nat), s: CheckState, s': CheckState) {
    && (s' == ToDone && s != ToDone ==>
          a.Answer? && (a.pass, a.job) == k
          && Indexer.FirstVerdict(a.attempts, cfg.confirmations, cfg.retries) == Indexer.Confirmed(true))
    && (s'.ToError? && s != s' ==>
          && a.Answer? && (a.pass, a.job) == k
          && s' == AfterVerdict(Indexer.FirstVerdict(a.attempts, cfg.confirmations, cfg.retries), a.expired))
    && (s' == Reading && s != Reading ==> a == WriteDone(k.0, k.1) && s == ToDone)
    && (s'.Publishing? && !s.Publishing? ==>
          a == ReadRows(k.0, k.1) && s == Reading && s'.read == RowsOf(w, k.1))
    && (s'.Publishing? && s.Publishing? ==> s'.read == s.read)
  }

  lemma ActsOnOneCheck(cfg: Config, w: World, a: Action)
    requires Enabled(w, a) && IsCheckAction(a) && !a.StartPass?
    ensures var k, w' := (a.pass, a.job), Next(cfg, w, a);
            && k in w.checks && k in w'.checks && w'.checks == w.checks[k := w'.checks[k]]
            && w'.checks[k].hash == w.checks[k].hash
            && Moves(cfg, w, a, k, w.checks[k].state, w'.checks[k].state)
  {
  }

  lemma PassAddsChecks(cfg: Config, w: World, k: (nat, nat))
    requires Inv(w) && k in Next(cfg, w, StartPass).checks
    ensures var c, snapshot := Next(cfg, w, StartPass).checks[k], PublishedWithHash(w.jobs);
            if k in w.checks then c == w.checks[k]
            else k.0 == w.passes && k.1 in snapshot && c == Check(snapshot[k.1], Asking)
  {
    assert Next(cfg, w, StartPass).checks == w.checks + NewChecks(w.passes, PublishedWithHash(w.jobs));
    if k in w.checks {
      assert CheckOk(k, w.checks[k], w.passes, w.published, w.reported, w.done);
    }
  }

  /** How a check came to be what it is after an action. */
  lemma CheckStep(cfg: Config, w: World, a: Action, k: (nat, nat))
    requires Inv(w) && Enabled(w, a) && k in Next(cfg, w, a).checks
    ensures var c, snapshot := Next(cfg, w, a).checks[k], PublishedWithHash(w.jobs);
            if k !in w.checks then
              a == StartPass && k.0 == w.passes && k.1 in snapshot && c == Check(snapshot[k.1], Asking)
            else
              c.hash == w.checks[k].hash && Moves(cfg, w, a, k, w.checks[k].state, c.state)
  {
    hide Next, Inv, NewChecks;
    if !IsCheckAction(a) {
      CallActionsLeaveChecks(cfg, w, a);
    } else if a.StartPass? {
      PassAddsChecks(cfg, w, k);
    } else {
      ActsOnOneCheck(cfg, w, a);
    }
  }

  lemma DoneStep(cfg: Config, w: World, a: Action, k: (nat, nat))
    requires Enabled(w, a) && k in Next(cfg, w, a).done && k !in w.done
    ensures a == WriteDone(k.0, k.1) && k in w.checks && w.checks[k].state == ToDone
  {
    hide Next;
    NextRecordsDone(cfg, w, a);
  }

  /** A pass asks about exactly the jobs that are published with a hash when it starts, each under the hash
      it then has. */
  lemma PassAsksAboutPublished(cfg: Config, w: World, j: nat)
    requires Inv(w)
    ensures var w' := Next(cfg, w, StartPass);
            && w'.passes == w.passes + 1
            && ((w.passes, j) in w'.checks <==> j in w.jobs && w.jobs[j].status == Published && w.jobs[j].hash.Some?)
            && ((w.passes, j) in w'.checks ==> w'.checks[(w.passes, j)] == Check(w.jobs[j].hash.value, Asking))
  {
    forall k | k in w.checks ensures k != (w.passes, j) {
      assert CheckOk(k, w.checks[k], w.passes, w.published, w.reported, w.done);
    }
    if j in PublishedWithHash(w.jobs) { assert (w.passes, j) in NewChecks(w.passes, PublishedWithHash(w.jobs)); }
  }

  // ----- the story of a check ---------------------------------------------------------------------------

  lemma {:induction false} CheckWasStarted(cfg: Config, run: seq<Action>, p: nat, j: nat) returns (s: nat)
    requires IsRun(cfg, run) && (p, j) in After(cfg, run).checks
    ensures Starts(cfg, run, s, p, j, After(cfg, run).checks[(p, j)].hash)
    decreases |run|
  {
    hide Next, NewChecks, Inv;
    var before, a := AllButLast(cfg, run), run[|run| - 1];
    RunsKeepInv(cfg, before);
    CheckStep(cfg, After(cfg, before), a, (p, j));
    if (p, j) in After(cfg, before).checks {
      s := CheckWasStarted(cfg, before, p, j);
    } else {
      s := |before|;
    }
  }

  predicate IsConfirmed(s: CheckState) {
    s == ToDone || s == Reading || s.Publishing?
  }

  /** A check that is to write DONE, or has written it, was started and then answered. */
  lemma {:induction false} CheckWasConfirmed(cfg: Config, run: seq<Action>, p: nat, j: nat) returns (s: nat, c: nat)
    requires IsRun(cfg, run) && (p, j) in After(cfg, run).checks && IsConfirmed(After(cfg, run).checks[(p, j)].state)
    ensures s < c && Starts(cfg, run, s, p, j, After(cfg, run).checks[(p, j)].hash) && Confirms(cfg, run, c, p, j)
    decreases |run|
  {
    hide Next, NewChecks, Inv;
    var before, a := AllButLast(cfg, run), run[|run| - 1];
    RunsKeepInv(cfg, before);
    CheckStep(cfg, After(cfg, before), a, (p, j));
    if IsConfirmed(After(cfg, before).checks[(p, j)].state) {
      s, c := CheckWasConfirmed(cfg, before, p, j);
    } else {
      Indexer.VerdictMeans(a.attempts, cfg.confirmations, cfg.retries);
      s := CheckWasStarted(cfg, before, p, j);
      c := |before|;
    }
  }

  /** What an answer makes of a check, read off the responses. */
  lemma AnswerMeans(cfg: Config, w: World, a: Action)
    requires a.Answer? && Enabled(w, a)
    ensures var s := InState(Next(cfg, w, a), a.pass, a.job);
            && (s == ToDone <==> exists n: nat :: Indexer.Decides(a.attempts, cfg.retries, n)
                                   && Indexer.IsDeepSuccess(a.attempts[n], cfg.confirmations))
            && (s == ToError(Some("runtime_error")) <==>
                exists n: nat :: Indexer.Decides(a.attempts, cfg.retries, n) && Indexer.IsFailure(a.attempts[n]))
            && (s == ToError(None) <==>
                a.expired
                && exists n: nat :: Indexer.Decides(a.attempts, cfg.retries, n) && Indexer.IsMissing(a.attempts[n]))
            && (s == ToDone || s == ToError(Some("runtime_error")) || s == ToError(None) || s == Finished)
  {
    hide Indexer.FirstVerdict, Indexer.Decides, Indexer.IsFailure, Indexer.IsMissing, Indexer.IsDeepSuccess;
    Indexer.VerdictMeans(a.attempts, cfg.confirmations, cfg.retries);
  }

  /** A check that is to write an error was started and then answered so. */
  lemma {:induction false} CheckWasRefused(cfg: Config, run: seq<Action>, p: nat, j: nat) returns (s: nat, c: nat)
    requires IsRun(cfg, run) && (p, j) in After(cfg, run).checks && After(cfg, run).checks[(p, j)].state.ToError?
    ensures var check := After(cfg, run).checks[(p, j)];
            s < c && Starts(cfg, run, s, p, j, check.hash) && Refuses(cfg, run, c, p, j, check.state.message)
    decreases |run|
  {
    hide Next, NewChecks, Inv;
    var before, a := AllButLast(cfg, run), run[|run| - 1];
    RunsKeepInv(cfg, before);
    CheckStep(cfg, After(cfg, before), a, (p, j));
    if After(cfg, before).checks[(p, j)].state == After(cfg, run).checks[(p, j)].state {
      s, c := CheckWasRefused(cfg, before, p, j);
    } else {
      Indexer.VerdictMeans(a.attempts, cfg.confirmations, cfg.retries);
      s := CheckWasStarted(cfg, before, p, j);
      c := |before|;
    }
  }

  /** In every interleaving: a check writes an error only after its pass had found the job published and
      the first conclusive attempt about it was a failure, or a missing operation that had expired; the
      write gives the job this status, the message just in the first case, and touches nothing else. */
  lemma CheckErrorWasReported(cfg: Config, run: seq<Action>, p: nat, j: nat)
    requires IsRun(cfg, run) && run != [] && run[|run| - 1] == WriteCheckError(p, j)
    ensures exists s: nat, c: nat, h, message ::
              && s < c < |run| - 1 && Starts(cfg, run, s, p, j, h) && Refuses(cfg, run, c, p, j, message)
              && var t, t' := JobsAt(cfg, run, |run| - 1), After(cfg, run).jobs;
                 && j in t
                 && t' == t[j := Job(Error, t[j].hash, if message.None? then t[j].message else message)]
  {
    hide Next, Inv;
    var before := AllButLast(cfg, run);
    var w := After(cfg, before);
    RunsKeepInv(cfg, before);
    NextWritesJobs(cfg, w, WriteCheckError(p, j));
    var s, c := CheckWasRefused(cfg, before, p, j);
    var check := w.checks[(p, j)];
    CheckedJobHasHash(w, p, j);
    assert Starts(cfg, run, s, p, j, check.hash) && Refuses(cfg, run, c, p, j, check.state.message);
  }

  /** In that order: the pass started with job j published under h, the check of j received a report of
      success at the required depth, and it wrote DONE. */
  ghost predicate WroteDoneAfterReport(cfg: Config, run: seq<Action>, p: nat, j: nat, h: string, s: nat, c: nat, d: nat)
    requires IsRun(cfg, run)
  {
    s < c < d && Starts(cfg, run, s, p, j, h) && Confirms(cfg, run, c, p, j) && WritesDone(run, d, p, j)
  }

  lemma {:induction false} CheckWroteDone(cfg: Config, run: seq<Action>, p: nat, j: nat)
    returns (s: nat, c: nat, d: nat)
    requires IsRun(cfg, run) && (p, j) in After(cfg, run).done
    ensures (p, j) in After(cfg, run).checks
    ensures WroteDoneAfterReport(cfg, run, p, j, After(cfg, run).checks[(p, j)].hash, s, c, d)
    decreases |run|
  {
    hide Next, NewChecks;
    RunsKeepInv(cfg, run);
    var before, a := AllButLast(cfg, run), run[|run| - 1];
    RunsKeepInv(cfg, before);
    CheckStep(cfg, After(cfg, before), a, (p, j));
    if (p, j) in After(cfg, before).done {
      s, c, d := CheckWroteDone(cfg, before, p, j);
    } else {
      DoneStep(cfg, After(cfg, before), a, (p, j));
      s, c := CheckWasConfirmed(cfg, before, p, j);
      d := |before|;
    }
  }

  /** A check that publishes had written DONE when it read all rows its job then had. */
  lemma {:induction false} PublishingCheck(cfg: Config, run: seq<Action>, p: nat, j: nat)
    returns (s: nat, c: nat, d: nat, r: nat)
    requires IsRun(cfg, run) && InState(After(cfg, run), p, j).Publishing?
    ensures WroteDoneAfterReport(cfg, run, p, j, After(cfg, run).checks[(p, j)].hash, s, c, d)
    ensures d < r && Reads(cfg, run, r, p, j, InState(After(cfg, run), p, j).read)
    decreases |run|
  {
    hide Next, NewChecks, Inv;
    var before, a := AllButLast(cfg, run), run[|run| - 1];
    RunsKeepInv(cfg, before);
    CheckStep(cfg, After(cfg, before), a, (p, j));
    if InState(After(cfg, before), p, j).Publishing? {
      s, c, d, r := PublishingCheck(cfg, before, p, j);
    } else {
      ReadingCheckIsDone(After(cfg, before), p, j);
      s, c, d := CheckWroteDone(cfg, before, p, j);
      r := |before|;
    }
  }

  lemma ReadingCheckIsDone(w: World, p: nat, j: nat)
    requires Inv(w) && (p, j) in w.checks && w.checks[(p, j)].state == Reading
    ensures (p, j) in w.done
  {
    assert CheckOk((p, j), w.checks[(p, j)], w.passes, w.published, w.reported, w.done);
  }

  /** In every interleaving: behind a job that is done there is a check of that very job, in a pass that
      began while the job was published with some hash; that check then received a report of success at
      the required depth, and after that wrote DONE. */
  lemma DoneWasPublishedAndReported(cfg: Config, run: seq<Action>, j: nat)
    requires IsRun(cfg, run) && j in After(cfg, run).jobs && After(cfg, run).jobs[j].status == Done
    ensures exists p, h, s, c, d :: WroteDoneAfterReport(cfg, run, p, j, h, s, c, d)
  {
    RunsKeepInv(cfg, run);
    var k :| k in After(cfg, run).done && k.1 == j;
    var s, c, d := CheckWroteDone(cfg, run, k.0, j);
  }

  // ----- which hash a DONE write marks ----------------------------------------------------------------------

  function HashOf(t: Table, j: nat): Option<string> {
    if j in t then t[j].hash else None
  }

  /** The hash of the last publication of job j from action s on. */
  ghost function PublishedSince(cfg: Config, run: seq<Action>, s: nat, j: nat): Option<string>
    requires IsRun(cfg, run)
    decreases |run|
  {
    if |run| <= s then None
    else
      var before, a := AllButLast(cfg, run), run[|run| - 1];
      var w := After(cfg, before);
      if a.WriteHash? && w.calls[a.call].job == j then Some(w.calls[a.call].state.hash)
      else PublishedSince(cfg, before, s, j)
  }

  lemma OneStepPublishes(cfg: Config, w: World, a: Action, j: nat)
    requires Inv(w) && Enabled(w, a)
    ensures HashOf(Next(cfg, w, a).jobs, j) ==
            if a.WriteHash? && w.calls[a.call].job == j then Some(w.calls[a.call].state.hash) else HashOf(w.jobs, j)
  {
    hide Next, ChecksInv;
    NextWritesJobs(cfg, w, a);
  }

  /** A job's hash is that of its last publication since any moment, or the one it had then. */
  lemma {:induction false} HashIsLastPublished(cfg: Config, run: seq<Action>, s: nat, j: nat)
    requires IsRun(cfg, run) && s <= |run|
    ensures HashOf(After(cfg, run).jobs, j) ==
            var since := PublishedSince(cfg, run, s, j);
            if since.Some? then since else HashOf(JobsAt(cfg, run, s), j)
    decreases |run|
  {
    hide Next, Inv;
    if |run| == s {
      assert run[..s] == run;
    } else {
      var before := AllButLast(cfg, run);
      RunsKeepInv(cfg, before);
      OneStepPublishes(cfg, After(cfg, before), run[|run| - 1], j);
      HashIsLastPublished(cfg, before, s, j);
    }
  }

  lemma PassesCount(cfg: Config, w: World, a: Action)
    requires Enabled(w, a)
    ensures Next(cfg, w, a).passes == if a.StartPass? then w.passes + 1 else w.passes
  {
    if !IsCheckAction(a) {
      CallActionsLeaveChecks(cfg, w, a);
    }
  }

  lemma {:induction false} PassesGrow(cfg: Config, run: seq<Action>, s: nat)
    requires IsRun(cfg, run) && s <= |run|
    ensures After(cfg, run).passes >= WorldAt(cfg, run, s).passes
    ensures s < |run| && run[s] == StartPass ==> After(cfg, run).passes > WorldAt(cfg, run, s).passes
    decreases |run|
  {
    hide Next, Enabled;
    if s == |run| {
      assert run[..s] == run;
    } else {
      var before := AllButLast(cfg, run);
      PassesCount(cfg, After(cfg, before), run[|run| - 1]);
      PassesGrow(cfg, before, s);
    }
  }

  /** A pass starts once. */
  lemma StartIsUnique(cfg: Config, run: seq<Action>, p: nat, j: nat, s: nat, h: string, s': nat, h': string)
    requires IsRun(cfg, run) && Starts(cfg, run, s, p, j, h) && Starts(cfg, run, s', p, j, h')
    ensures s == s' && h == h'
  {
    hide Next;
    var first, second := if s < s' then s else s', if s < s' then s' else s;
    if first < second {
      PrefixIsRun(cfg, run, second);
      assert run[..second][..first] == run[..first];
      PassesGrow(cfg, run[..second], first);
      assert false;
    }
  }

  /** A DONE write of a pass that found the job published under `asked`: by then the check has had a
      report of success about it. The write marks that very hash if and only if the last publication of
      the job since the pass began, if there was one, was of the same hash. */
  lemma DoneMarksReportedHashExactly(cfg: Config, run: seq<Action>, p: nat, j: nat, s: nat, asked: string)
    requires IsRun(cfg, run) && run != [] && run[|run| - 1] == WriteDone(p, j) && Starts(cfg, run, s, p, j, asked)
    ensures exists c :: s < c < |run| - 1 && Confirms(cfg, run, c, p, j)
    ensures j in After(cfg, run).jobs && After(cfg, run).jobs[j].status == Done
    ensures After(cfg, run).jobs[j].hash == Some(asked) <==>
            PublishedSince(cfg, run, s, j) == None || PublishedSince(cfg, run, s, j) == Some(asked)
  {
    hide Next, Inv;
    var before := AllButLast(cfg, run);
    RunsKeepInv(cfg, before);
    NextWritesJobs(cfg, After(cfg, before), WriteDone(p, j));
    var start, c := CheckWasConfirmed(cfg, before, p, j);
    assert Confirms(cfg, run, c, p, j) && Starts(cfg, run, start, p, j, After(cfg, before).checks[(p, j)].hash);
    StartIsUnique(cfg, run, p, j, s, asked, start, After(cfg, before).checks[(p, j)].hash);
    CheckedJobHasHash(After(cfg, before), p, j);
    HashIsLastPublished(cfg, run, s, j);
  }
}
