/** The events of confirmed operations, over all runs of the job protocol. */
module JobEvents {
  import opened Wrappers
  import opened Jobs
  import opened JobProtocol
  import opened JobHistory

  /** Whether the check of (pass, job) has sent the event of row r. */
  ghost predicate Sent(w: World, e: Event) {
    var k := (e.pass, e.job);
    && k in w.checks && w.checks[k].state.Publishing?
    && e.row in w.checks[k].state.read && e.row !in w.checks[k].state.left
    && e.row < |w.rows| && Announced(w.rows[e.row].kind) && e.isReveal == w.rows[e.row].kind.isReveal
  }

  ghost predicate ReadsOwnRows(w: World, k: (nat, nat)) {
    k in w.checks && w.checks[k].state.Publishing? ==>
      w.checks[k].state.left <= w.checks[k].state.read <= RowsOf(w, k.1)
  }

  /** Every announced row that a check has dealt with has exactly one event of its kind, and there
      are no other events. */
  ghost predicate EventsInv(w: World) {
    && (forall e :: w.events[e] == if Sent(w, e) then 1 else 0)
    && (forall k :: ReadsOwnRows(w, k))
  }

  lemma RowsGrow(w: World, w': World)
    requires w.rows <= w'.rows && w.checks == w'.checks && w.events == w'.events && EventsInv(w)
    ensures EventsInv(w')
  {
    forall k ensures ReadsOwnRows(w', k) { assert ReadsOwnRows(w, k); }
    forall e ensures Sent(w', e) == Sent(w, e) {
      assert ReadsOwnRows(w, (e.pass, e.job));
    }
  }

  lemma PublishKeepsEventsInv(cfg: Config, w: World, p: nat, j: nat, r: nat)
    requires EventsInv(w) && Enabled(w, Publish(p, j, r))
    ensures EventsInv(Next(cfg, w, Publish(p, j, r)))
  {
    var w' := Next(cfg, w, Publish(p, j, r));
    assert ReadsOwnRows(w, (p, j));
    forall k ensures ReadsOwnRows(w', k) { assert ReadsOwnRows(w, k); }
    forall e ensures w'.events[e] == if Sent(w', e) then 1 else 0 {
      if e == Event(p, j, r, w.rows[r].kind.isReveal) {
        assert !Sent(w, e);
      } else {
        assert Sent(w', e) == Sent(w, e);
      }
    }
  }

  /** A step that moves checks but publishes nothing, and lets no check leave or enter `Publishing`
      other than by reading its rows. */
  lemma QuietStepKeepsEventsInv(w: World, w': World)
    requires EventsInv(w) && w'.rows == w.rows && w'.events == w.events
    requires forall k :: k in w.checks ==> k in w'.checks
    requires forall k :: k in w'.checks ==>
      || (k in w.checks && w'.checks[k].state == w.checks[k].state)
      || ((k in w.checks ==> !w.checks[k].state.Publishing?)
          && (w'.checks[k].state.Publishing? ==> w'.checks[k].state == Publishing(RowsOf(w, k.1), RowsOf(w, k.1))))
    ensures EventsInv(w')
  {
    forall k ensures ReadsOwnRows(w', k) { assert ReadsOwnRows(w, k); }
    forall e ensures Sent(w', e) == Sent(w, e) {
      var k := (e.pass, e.job);
      if k in w'.checks {}
    }
  }

  lemma PassStartsFresh(w: World)
    requires ChecksInv(w.checks, w.passes, w.published, w.reported, w.done)
    ensures forall k :: k in w.checks ==> k !in NewChecks(w.passes, PublishedWithHash(w.jobs))
  {
    forall k | k in w.checks ensures k.0 < w.passes {
      assert CheckOk(k, w.checks[k], w.passes, w.published, w.reported, w.done);
    }
  }

  lemma CheckStepIsQuiet(cfg: Config, w: World, a: Action)
    requires Enabled(w, a) && IsCheckAction(a) && !a.Publish? && !a.StartPass?
    ensures var w', m := Next(cfg, w, a), (a.pass, a.job);
            && w'.rows == w.rows && w'.events == w.events
            && m in w.checks && !w.checks[m].state.Publishing? && m in w'.checks
            && w'.checks == w.checks[m := w'.checks[m]]
            && (w'.checks[m].state.Publishing? ==> w'.checks[m].state == Publishing(RowsOf(w, m.1), RowsOf(w, m.1)))
  {
  }

  lemma EventsInvNext(cfg: Config, w: World, a: Action)
    requires Inv(w) && EventsInv(w) && Enabled(w, a)
    ensures EventsInv(Next(cfg, w, a))
  {
    if a.Publish? {
      PublishKeepsEventsInv(cfg, w, a.pass, a.job, a.row);
    } else if !IsCheckAction(a) {
      CallActionsLeaveChecks(cfg, w, a);
      RowsGrow(w, Next(cfg, w, a));
    } else if a.StartPass? {
      PassStartsFresh(w);
      QuietStepKeepsEventsInv(w, Next(cfg, w, a));
    } else {
      CheckStepIsQuiet(cfg, w, a);
      QuietStepKeepsEventsInv(w, Next(cfg, w, a));
    }
  }

  lemma {:induction false} RunsKeepEventsInv(cfg: Config, run: seq<Action>)
    requires IsRun(cfg, run)
    ensures EventsInv(After(cfg, run)) && Inv(After(cfg, run))
    decreases |run|
  {
    RunsKeepInv(cfg, run);
    if run != [] {
      RunsKeepEventsInv(cfg, run[..|run| - 1]);
      EventsInvNext(cfg, After(cfg, run[..|run| - 1]), run[|run| - 1]);
    }
  }

  /** In every run an event names a stored row of its job, with the row's kind; and behind it, in that
      order, are the start of a pass that found the job published, a report of success to its check, the
      DONE write of that check, and its reading of the job's rows, this row among them. */
  lemma EventsFollowConfirmation(cfg: Config, run: seq<Action>, e: Event)
    requires IsRun(cfg, run) && e in After(cfg, run).events
    ensures var w := After(cfg, run);
            && e.row < |w.rows| && w.rows[e.row].job == e.job
            && w.rows[e.row].kind.isReveal == e.isReveal && (e.isReveal || w.rows[e.row].kind.parameters)
            && (e.pass, e.job) in w.done
    ensures exists h, s: nat, c: nat, d: nat, r: nat, read ::
              && WroteDoneAfterReport(cfg, run, e.pass, e.job, h, s, c, d)
              && d < r && Reads(cfg, run, r, e.pass, e.job, read) && e.row in read
  {
    RunsKeepEventsInv(cfg, run);
    var w := After(cfg, run);
    var k := (e.pass, e.job);
    assert Sent(w, e) && ReadsOwnRows(w, k);
    assert CheckOk(k, w.checks[k], w.passes, w.published, w.reported, w.done);
    var s, c, d, r := PublishingCheck(cfg, run, e.pass, e.job);
  }

  /** A check that has dealt with all rows it read had read, at that moment of the run, all rows of its
      job; and it has sent exactly one event for each of them that is a reveal or has `parameters_json`,
      of the matching kind, and no other event. */
  lemma FinishedCheckAnnouncedEachRowOnce(cfg: Config, run: seq<Action>, p: nat, j: nat, read: set<nat>)
    requires IsRun(cfg, run) && InState(After(cfg, run), p, j) == Publishing(read, {})
    ensures exists r :: Reads(cfg, run, r, p, j, read)
    ensures var w := After(cfg, run);
            && read <= RowsOf(w, j)
            && forall r: nat, b: bool :: w.events[Event(p, j, r, b)] ==
                 if r in read && (b || w.rows[r].kind.parameters) && b == w.rows[r].kind.isReveal then 1 else 0
  {
    RunsKeepEventsInv(cfg, run);
    var w := After(cfg, run);
    assert ReadsOwnRows(w, (p, j));
    var s, c, d, moment := PublishingCheck(cfg, run, p, j);
    forall r: nat, b: bool
      ensures w.events[Event(p, j, r, b)] ==
              if r in read && Announced(w.rows[r].kind) && b == w.rows[r].kind.isReveal then 1 else 0
    {
      assert Sent(w, Event(p, j, r, b)) <==>
             r in read && Announced(w.rows[r].kind) && b == w.rows[r].kind.isReveal;
    }
  }

  // ----- passes that do not overlap, jobs that are injected once ---------------------------------------

  predicate Idle(s: CheckState) {
    s == Finished || (s.Publishing? && s.left == {})
  }

  /** A pass starts when the previous one has ended; a job is injected or sent once. */
  ghost predicate Orderly(w: World, a: Action) {
    match a
    case StartPass => forall k :: k in w.checks ==> Idle(w.checks[k].state)
    case Begin(j, _) => forall c :: 0 <= c < |w.calls| ==> w.calls[c].job != j
    case _ => true
  }

  ghost predicate IsOrderlyRun(cfg: Config, run: seq<Action>)
    requires IsRun(cfg, run)
  {
    run == []
    || (PrefixIsRun(cfg, run, |run| - 1);
        IsOrderlyRun(cfg, run[..|run| - 1]) && Orderly(After(cfg, run[..|run| - 1]), run[|run| - 1]))
  }

  ghost predicate HasReturned(calls: seq<Call>, j: nat) {
    exists c :: 0 <= c < |calls| && calls[c].job == j && calls[c].state == Returned
  }

  ghost predicate CallsInv(w: World) {
    && (forall c, d :: 0 <= c < d < |w.calls| ==> w.calls[c].job != w.calls[d].job)
    && (forall k :: k in w.published ==> HasReturned(w.calls, k.0))
  }

  /** One pass is under way; a job written done stays done and is done by one check only. */
  ghost predicate OnceInv(w: World) {
    && (forall k :: k in w.checks && !Idle(w.checks[k].state) ==> k.0 == w.passes - 1)
    && (forall k, l :: k in w.done && l in w.done && k.1 == l.1 ==> k == l)
    && (forall k :: k in w.done ==> k.1 in w.jobs && w.jobs[k.1].status == Done)
    && (forall k, l :: k in w.checks && l in w.done && k.1 == l.1 ==> AfterDone(w.checks[k].state))
  }

  predicate AfterDone(s: CheckState) {
    s == Finished || s == Reading || s.Publishing?
  }

  lemma CallsInvNext(cfg: Config, w: World, a: Action)
    requires Inv(w) && CallsInv(w) && Enabled(w, a) && Orderly(w, a)
    ensures CallsInv(Next(cfg, w, a))
  {
    var w' := Next(cfg, w, a);
    if IsCheckAction(a) {
      CheckActionsLeaveCalls(cfg, w, a);
    } else {
      CallsStep(cfg, w, a);
      forall k | k in w'.published ensures HasReturned(w'.calls, k.0) {
        if a.WriteHash? && k.0 == w.calls[a.call].job {
          assert w'.calls[a.call].state == Returned;
        } else {
          var c :| 0 <= c < |w.calls| && w.calls[c].job == k.0 && w.calls[c].state == Returned;
          assert w'.calls[c].job == k.0 && w'.calls[c].state == Returned;
        }
      }
    }
  }

  /** A step of a call starts a new call or moves one on, for the same job; what has returned stays so. */
  lemma CallsStep(cfg: Config, w: World, a: Action)
    requires Enabled(w, a) && !IsCheckAction(a)
    ensures var w' := Next(cfg, w, a);
            && |w.calls| <= |w'.calls| <= |w.calls| + 1
            && (|w'.calls| > |w.calls| ==> a.Begin? && w'.calls[|w.calls|].job == a.job)
            && (forall c :: 0 <= c < |w.calls| ==>
                  w'.calls[c].job == w.calls[c].job && (w.calls[c].state == Returned ==> w'.calls[c].state == Returned))
            && (forall k :: k in w'.published && k !in w.published ==> a.WriteHash? && k.0 == w.calls[a.call].job)
  {
  }

  /** No call can write a job that has been written done: its only call has returned. */
  lemma DoneJobsAreLeftAlone(w: World, a: Action, l: (nat, nat))
    requires Inv(w) && CallsInv(w) && OnceInv(w) && Enabled(w, a) && !a.WriteDone? && l in w.done
    ensures l.1 in NextJobs(w, a) && NextJobs(w, a)[l.1].status == Done
  {
    ItsCallHasReturned(w, l);
    if a.WriteHash? || a.WriteError? {
      assert w.calls[a.call].job != l.1;
    } else if a.WriteCheckError? {
      assert !AfterDone(w.checks[(a.pass, a.job)].state);
    } else if a.CreateJob? {
      assert l.1 != w.nextJob;
    }
  }

  lemma ItsCallHasReturned(w: World, l: (nat, nat))
    requires Inv(w) && CallsInv(w) && l in w.done
    ensures forall c :: 0 <= c < |w.calls| && w.calls[c].job == l.1 ==> w.calls[c].state == Returned
  {
    assert CheckOk(l, w.checks[l], w.passes, w.published, w.reported, w.done);
    assert HasReturned(w.calls, l.1);
    var c :| 0 <= c < |w.calls| && w.calls[c].job == l.1 && w.calls[c].state == Returned;
    assert forall d :: 0 <= d < |w.calls| && d != c ==> w.calls[d].job != l.1;
  }

  lemma OnceInvDone(cfg: Config, w: World, p: nat, j: nat)
    requires OnceInv(w) && Enabled(w, WriteDone(p, j)) && j in w.jobs
    ensures OnceInv(Next(cfg, w, WriteDone(p, j)))
  {
    var w', m := Next(cfg, w, WriteDone(p, j)), (p, j);
    assert !AfterDone(w.checks[m].state) && p == w.passes - 1;
    assert forall k :: k in w.done ==> k.1 != j;
    assert w'.checks == w.checks[m := w.checks[m].(state := Reading)];
    assert w'.jobs == w.jobs[j := w.jobs[j].(status := Done)];
    forall k, l | k in w'.checks && l in w'.done && k.1 == l.1 ensures AfterDone(w'.checks[k].state) {
      if k != m && k.1 == j {
        assert Idle(w.checks[k].state) || k.0 == p;
      }
    }
  }

  lemma OnceInvNext(cfg: Config, w: World, a: Action)
    requires Inv(w) && CallsInv(w) && OnceInv(w) && Enabled(w, a) && Orderly(w, a)
    ensures OnceInv(Next(cfg, w, a))
  {
    var w' := Next(cfg, w, a);
    if a.WriteDone? {
      CheckedJobHasHash(w, a.pass, a.job);
      OnceInvDone(cfg, w, a.pass, a.job);
    } else {
      NextWritesJobs(cfg, w, a);
      NextRecordsDone(cfg, w, a);
      forall l | l in w.done { DoneJobsAreLeftAlone(w, a, l); }
      ChecksStep(cfg, w, a);
    }
  }

  /** A check that acts is not idle, and past the DONE write it stays past it. */
  lemma CheckMoves(cfg: Config, w: World, a: Action)
    requires Enabled(w, a) && IsCheckAction(a) && !a.StartPass?
    ensures var m, w' := (a.pass, a.job), Next(cfg, w, a);
            && m in w.checks && !Idle(w.checks[m].state)
            && w'.passes == w.passes && m in w'.checks
            && w'.checks == w.checks[m := w'.checks[m]]
            && (AfterDone(w.checks[m].state) ==> AfterDone(w'.checks[m].state))
  {
  }

  lemma PassStarts(cfg: Config, w: World)
    requires OnceInv(w) && Orderly(w, StartPass)
    ensures var w' := Next(cfg, w, StartPass);
            && (forall k :: k in w'.checks && !Idle(w'.checks[k].state) ==> k.0 == w'.passes - 1)
            && (forall k, l :: k in w'.checks && l in w.done && k.1 == l.1 ==> AfterDone(w'.checks[k].state))
  {
    var w', added := Next(cfg, w, StartPass), NewChecks(w.passes, PublishedWithHash(w.jobs));
    assert w'.checks == w.checks + added;
    assert forall k :: k in added ==> k.0 == w.passes && k.1 in PublishedWithHash(w.jobs);
  }

  /** Other steps never bring a check of a done job back before the DONE write, nor wake an old pass. */
  lemma ChecksStep(cfg: Config, w: World, a: Action)
    requires OnceInv(w) && Enabled(w, a) && Orderly(w, a) && !a.WriteDone?
    ensures var w' := Next(cfg, w, a);
            && (forall k :: k in w'.checks && !Idle(w'.checks[k].state) ==> k.0 == w'.passes - 1)
            && (forall k, l :: k in w'.checks && l in w.done && k.1 == l.1 ==> AfterDone(w'.checks[k].state))
  {
    if !IsCheckAction(a) {
      CallActionsLeaveChecks(cfg, w, a);
    } else if a.StartPass? {
      PassStarts(cfg, w);
    } else {
      CheckMoves(cfg, w, a);
      var w', m := Next(cfg, w, a), (a.pass, a.job);
      forall k, l | k in w'.checks && l in w.done && k.1 == l.1 ensures AfterDone(w'.checks[k].state) {
        assert AfterDone(w.checks[k].state);
      }
    }
  }

  lemma {:induction false} OrderlyRunsKeepOnceInv(cfg: Config, run: seq<Action>)
    requires IsRun(cfg, run) && IsOrderlyRun(cfg, run)
    ensures CallsInv(After(cfg, run)) && OnceInv(After(cfg, run))
    decreases |run|
  {
    if run != [] {
      var before := run[..|run| - 1];
      OrderlyRunsKeepOnceInv(cfg, before);
      RunsKeepInv(cfg, before);
      CallsInvNext(cfg, After(cfg, before), run[|run| - 1]);
      OnceInvNext(cfg, After(cfg, before), run[|run| - 1]);
    }
  }

  /** If passes do not overlap and jobs are not injected again, no row is ever announced twice. */
  lemma NoRowIsAnnouncedTwice(cfg: Config, run: seq<Action>, e: Event, f: Event)
    requires IsRun(cfg, run) && IsOrderlyRun(cfg, run)
    requires e in After(cfg, run).events && f in After(cfg, run).events && e.row == f.row
    ensures e == f && After(cfg, run).events[e] == 1
  {
    EventsFollowConfirmation(cfg, run, e);
    EventsFollowConfirmation(cfg, run, f);
    RunsKeepEventsInv(cfg, run);
    OrderlyRunsKeepOnceInv(cfg, run);
    assert (e.pass, e.job) == (f.pass, f.job);
  }
}
